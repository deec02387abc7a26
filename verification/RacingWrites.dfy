/** Whole writes past the last continuation, side by side: every writer extends the file as in
    `Race` and then writes its bytes to the continuation its own creation returned, which is the
    same for all of them. */
module RacingWrites {
  import opened Outcomes
  import opened Continuations
  import opened Walks
  import opened Creation
  import opened Parts
  import opened FlatFile
  import opened Race

  /** What a writer writes, and where in the new continuation. */
  datatype Job = Job(pos: nat, bytes: seq<byte>)

  /** The creators, and those of them that have written their bytes, in that order. */
  datatype Writers = Writers(race: State, order: seq<nat>)

  predicate CanWrite(s: Writers, jobs: seq<Job>, who: nat) {
    who < |s.race.creators| == |jobs| && s.race.creators[who].pc == 9 && who !in s.order
  }

  /** A turn is a step of creation, or after all nine of them the client's write. */
  function Act(s: Writers, t: Cont, jobs: seq<Job>, turn: Turn): Writers {
    if CanTurn(s.race, t, turn) then s.(race := Take(s.race, t, turn))
    else if CanWrite(s, jobs, turn.who) then
      var added := NewLoc(t, s.race.creators[turn.who].ino);
      var job := jobs[turn.who];
      Writers(s.race.(disk := SplicedAt(s.race.disk, added, job.pos, job.bytes)), s.order + [turn.who])
    else s
  }

  function RunWrites(s: Writers, t: Cont, jobs: seq<Job>, turns: seq<Turn>): Writers
    decreases |turns|
  {
    if turns == [] then s else RunWrites(Act(s, t, jobs, turns[0]), t, jobs, turns[1..])
  }

  function Begun(d: Disk, jobs: seq<Job>): Writers {
    Writers(Start(d, |jobs|), [])
  }

  predicate NameJobs(order: seq<nat>, jobs: seq<Job>) {
    forall i :: 0 <= i < |order| ==> order[i] < |jobs|
  }

  /** `data` after the jobs in `order`. */
  function Bytes(data: seq<byte>, jobs: seq<Job>, order: seq<nat>): seq<byte>
    requires NameJobs(order, jobs)
    decreases |order|
  {
    if order == [] then data
    else Bytes(Splice(data, jobs[order[0]].pos, jobs[order[0]].bytes), jobs, order[1..])
  }

  lemma {:induction false} BytesOneMore(data: seq<byte>, jobs: seq<Job>, order: seq<nat>, who: nat)
    requires who < |jobs| && NameJobs(order, jobs)
    ensures Bytes(data, jobs, order + [who]) == Splice(Bytes(data, jobs, order), jobs[who].pos, jobs[who].bytes)
    decreases |order|
  {
    if order == [] {
      assert [who][1..] == [];
    } else {
      assert (order + [who])[1..] == order[1..] + [who];
      BytesOneMore(Splice(data, jobs[order[0]].pos, jobs[order[0]].bytes), jobs, order[1..], who);
    }
  }

  // ---- What every schedule keeps ---------------------------------------------------------------

  /** The race without the bytes written so far. */
  ghost function Bare(s: Writers, d: Disk, t: Cont, ino: nat): State
    requires CanExtend(d, t, ino)
  {
    State(StateAfter(d, t, ino, Furthest(s.race.creators)), s.race.creators)
  }

  ghost predicate Ordered(s: Writers, jobs: seq<Job>) {
    && NameJobs(s.order, jobs) && |s.race.creators| == |jobs|
    && (forall i :: 0 <= i < |s.order| ==> s.race.creators[s.order[i]].pc == 9)
    && (forall i, j :: 0 <= i < j < |s.order| ==> s.order[i] != s.order[j])
  }

  /** The disk is that of the race with the bytes written so far, in their order, in the new
      continuation; and nobody writes before all of creation is done. */
  ghost predicate Going(s: Writers, d: Disk, t: Cont, ino: nat, jobs: seq<Job>) {
    && CanExtend(d, t, ino) && |s.race.creators| == |jobs|
    && Ordered(s, jobs)
    && Agreed(Bare(s, d, t, ino), d, t, ino)
    && if s.order == [] then s.race == Bare(s, d, t, ino)
       else
         && Furthest(s.race.creators) == 9
         && s.race.disk == PutData(Created(d, t, ino), NewLoc(t, ino), Bytes(DataAt(d, NewLoc(t, ino)), jobs, s.order))
  }

  lemma StepIgnoresBytes(d: Disk, t: Cont, ino: nat, k: nat, data: seq<byte>)
    requires InRange(t.at) && InRange(NewLoc(t, ino)) && NameOf(t.at) in d.names
    requires NewLoc(t, ino) in d.inodes && t.at in d.inodes
    ensures Step(PutData(d, NewLoc(t, ino), data), t, ino, k) == PutData(Step(d, t, ino, k), NewLoc(t, ino), data)
  {
    var p := NewLoc(t, ino);
    assert Step(PutData(d, p, data), t, ino, k).inodes == PutData(Step(d, t, ino, k), p, data).inodes;
  }

  /** After all of creation its steps change nothing. */
  lemma StepAfterwards(d: Disk, t: Cont, ino: nat, k: nat, data: seq<byte>)
    requires CanExtend(d, t, ino) && k < 9
    ensures NewLoc(t, ino) in Created(d, t, ino).inodes && t.at in Created(d, t, ino).inodes
    ensures var d' := PutData(Created(d, t, ino), NewLoc(t, ino), data); Step(d', t, ino, k) == d'
  {
    StepAdvances(d, t, ino, 9, k);
    CreatedData(d, t, ino);
    StepIgnoresBytes(Created(d, t, ino), t, ino, k, data);
  }

  /** Before the first bytes. */
  lemma TakeFirst(s: Writers, d: Disk, t: Cont, ino: nat, jobs: seq<Job>, turn: Turn)
    requires Going(s, d, t, ino, jobs) && CanTurn(s.race, t, turn) && s.order == []
    requires Furthest(s.race.creators) > 0 || Opened(d, t, turn.alloc) == ino
    ensures Going(Act(s, t, jobs, turn), d, t, ino, jobs)
  {
    OpenedAgain(s.race, d, t, ino, turn.alloc);
    TakeKeepsAgreement(s.race, d, t, ino, turn);
  }

  /** Bytes of an inode decide nothing about the steps of creation. */
  lemma TurnIgnoresBytes(d: Disk, ks: seq<Creator>, t: Cont, p: Loc, data: seq<byte>, turn: Turn)
    ensures CanTurn(State(PutData(d, p, data), ks), t, turn) <==> CanTurn(State(d, ks), t, turn)
    ensures Opened(PutData(d, p, data), t, turn.alloc) == Opened(d, t, turn.alloc)
  {
  }

  /** Whether it has opened the file yet or not, a creator works on the inode first opened. */
  lemma SameIno(s: State, d: Disk, t: Cont, ino: nat, turn: Turn)
    requires CanExtend(d, t, ino) && Agreed(s, d, t, ino) && Furthest(s.creators) > 0 && turn.who < |s.creators|
    ensures var k := s.creators[turn.who]; (if k.pc == 0 then Opened(s.disk, t, turn.alloc) else k.ino) == ino
  {
    OpenedAgain(s, d, t, ino, turn.alloc);
  }

  /** After the first bytes a creator that lags behind changes nothing on the disk. */
  lemma TakeLater(ks: seq<Creator>, d: Disk, t: Cont, ino: nat, data: seq<byte>, turn: Turn)
    requires CanExtend(d, t, ino) && Agreed(State(Created(d, t, ino), ks), d, t, ino) && Furthest(ks) == 9
    requires CanTurn(State(PutData(Created(d, t, ino), NewLoc(t, ino), data), ks), t, turn)
    ensures var disk := PutData(Created(d, t, ino), NewLoc(t, ino), data);
            var ks' := ks[turn.who := Creator(ks[turn.who].pc + 1, ino)];
            && Take(State(disk, ks), t, turn) == State(disk, ks')
            && CanTurn(State(Created(d, t, ino), ks), t, turn)
            && Take(State(Created(d, t, ino), ks), t, turn) == State(Created(d, t, ino), ks')
            && Agreed(State(Created(d, t, ino), ks'), d, t, ino)
  {
    var bare, p := State(Created(d, t, ino), ks), NewLoc(t, ino);
    TurnIgnoresBytes(bare.disk, ks, t, p, data, turn);
    SameIno(bare, d, t, ino, turn);
    StepAfterwards(d, t, ino, ks[turn.who].pc, data);
    StepAdvances(d, t, ino, 9, ks[turn.who].pc);
    TakeIs(State(PutData(bare.disk, p, data), ks), t, ino, turn);
    TakeIs(bare, t, ino, turn);
    TakeKeepsAgreement(bare, d, t, ino, turn);
  }

  lemma TakeIs(s: State, t: Cont, ino: nat, turn: Turn)
    requires CanTurn(s, t, turn)
    requires var k := s.creators[turn.who]; (if k.pc == 0 then Opened(s.disk, t, turn.alloc) else k.ino) == ino
    ensures Take(s, t, turn) == State(Step(s.disk, t, ino, s.creators[turn.who].pc),
                                      s.creators[turn.who := Creator(s.creators[turn.who].pc + 1, ino)])
  {
  }

  /** A creator at its end keeps the most advanced one there. */
  lemma FurthestStays(ks: seq<Creator>, who: nat, k: Creator)
    requires who < |ks| && k.pc > ks[who].pc
    ensures Furthest(ks[who := k]) >= Furthest(ks) && Furthest(ks[who := k]) > 0
  {
    assert ks[who := k][who].pc > 0;
    if Furthest(ks) > 0 {
      var i :| 0 <= i < |ks| && ks[i].pc == Furthest(ks);
      assert ks[who := k][i].pc >= Furthest(ks);
    }
  }

  lemma OrderedStays(s: Writers, jobs: seq<Job>, t: Cont, turn: Turn)
    requires Ordered(s, jobs) && CanTurn(s.race, t, turn)
    ensures Ordered(s.(race := Take(s.race, t, turn)), jobs)
  {
  }

  lemma TakeKeepsGoing(s: Writers, d: Disk, t: Cont, ino: nat, jobs: seq<Job>, turn: Turn)
    requires Going(s, d, t, ino, jobs) && CanTurn(s.race, t, turn)
    requires Furthest(s.race.creators) > 0 || Opened(d, t, turn.alloc) == ino
    ensures Going(Act(s, t, jobs, turn), d, t, ino, jobs)
    ensures Furthest(Act(s, t, jobs, turn).race.creators) > 0
  {
    var ks, s' := s.race.creators, Act(s, t, jobs, turn);
    FurthestStays(ks, turn.who, s'.race.creators[turn.who]);
    if s.order == [] {
      TakeFirst(s, d, t, ino, jobs, turn);
    } else {
      TakeLater(ks, d, t, ino, Bytes(DataAt(d, NewLoc(t, ino)), jobs, s.order), turn);
      OrderedStays(s, jobs, t, turn);
    }
  }

  /** One more job, on the disk ... */
  lemma BytesDiskStep(d: Disk, t: Cont, ino: nat, jobs: seq<Job>, order: seq<nat>, who: nat)
    requires CanExtend(d, t, ino) && NameJobs(order, jobs) && who < |jobs|
    ensures NameJobs(order + [who], jobs)
    ensures var d9, p, data := Created(d, t, ino), NewLoc(t, ino), DataAt(d, NewLoc(t, ino));
            var d' := if order == [] then d9 else PutData(d9, p, Bytes(data, jobs, order));
            SplicedAt(d', p, jobs[who].pos, jobs[who].bytes) == PutData(d9, p, Bytes(data, jobs, order + [who]))
  {
    var p := NewLoc(t, ino);
    CreatedData(d, t, ino);
    BytesOneMore(DataAt(d, p), jobs, order, who);
    PutTwice(Created(d, t, ino), p, Bytes(DataAt(d, p), jobs, order), Bytes(DataAt(d, p), jobs, order + [who]));
  }

  /** ... and in the order. */
  lemma OneMoreOrdered(s: Writers, jobs: seq<Job>, who: nat)
    requires Ordered(s, jobs) && CanWrite(s, jobs, who)
    ensures Ordered(s.(order := s.order + [who]), jobs)
  {
    assert forall i :: 0 <= i < |s.order| ==> s.order[i] in s.order;
  }

  lemma WriteKeepsGoing(s: Writers, d: Disk, t: Cont, ino: nat, jobs: seq<Job>, who: nat)
    requires Going(s, d, t, ino, jobs) && CanWrite(s, jobs, who)
    ensures s.race.creators[who].ino == ino && Furthest(s.race.creators) == 9
    ensures var s' := Writers(s.race.(disk := SplicedAt(s.race.disk, NewLoc(t, ino), jobs[who].pos, jobs[who].bytes)), s.order + [who]);
            Going(s', d, t, ino, jobs)
  {
    FurthestIs(s.race.creators, 9);
    BytesDiskStep(d, t, ino, jobs, s.order, who);
    OneMoreOrdered(s, jobs, who);
  }

  lemma PutTwice(d: Disk, p: Loc, x: seq<byte>, y: seq<byte>)
    requires p in d.inodes
    ensures DataAt(PutData(d, p, x), p) == x && PutData(PutData(d, p, x), p, y) == PutData(d, p, y)
  {
    assert PutData(PutData(d, p, x), p, y).inodes == PutData(d, p, y).inodes;
  }

  lemma PutSame(d: Disk, p: Loc)
    ensures PutData(d, p, DataAt(d, p)) == d
  {
    assert PutData(d, p, DataAt(d, p)).inodes == d.inodes;
  }

  lemma ActKeepsGoing(s: Writers, d: Disk, t: Cont, ino: nat, jobs: seq<Job>, turn: Turn)
    requires Going(s, d, t, ino, jobs)
    requires Furthest(s.race.creators) > 0 || (CanTurn(s.race, t, turn) && Opened(d, t, turn.alloc) == ino)
    ensures Going(Act(s, t, jobs, turn), d, t, ino, jobs)
    ensures Furthest(Act(s, t, jobs, turn).race.creators) > 0
  {
    if CanTurn(s.race, t, turn) {
      TakeKeepsGoing(s, d, t, ino, jobs, turn);
    } else if CanWrite(s, jobs, turn.who) {
      WriteKeepsGoing(s, d, t, ino, jobs, turn.who);
    }
  }

  lemma {:induction false} RunKeepsGoing(s: Writers, d: Disk, t: Cont, ino: nat, jobs: seq<Job>, turns: seq<Turn>)
    requires Going(s, d, t, ino, jobs) && Furthest(s.race.creators) > 0
    ensures Going(RunWrites(s, t, jobs, turns), d, t, ino, jobs)
    ensures Furthest(RunWrites(s, t, jobs, turns).race.creators) > 0
    decreases |turns|
  {
    if turns != [] {
      ActKeepsGoing(s, d, t, ino, jobs, turns[0]);
      RunKeepsGoing(Act(s, t, jobs, turns[0]), d, t, ino, jobs, turns[1..]);
    }
  }

  /** From the first open on: the invariant over every schedule. */
  lemma ScheduleGoes(d: Disk, t: Cont, jobs: seq<Job>, turns: seq<Turn>)
    requires turns != [] && turns[0].who < |jobs| && CanExtend(d, t, Opened(d, t, turns[0].alloc))
    ensures Going(RunWrites(Begun(d, jobs), t, jobs, turns), d, t, Opened(d, t, turns[0].alloc), jobs)
    ensures Furthest(RunWrites(Begun(d, jobs), t, jobs, turns).race.creators) > 0
  {
    var ino, s := Opened(d, t, turns[0].alloc), Begun(d, jobs);
    FurthestIs(s.race.creators, 0);
    ActKeepsGoing(s, d, t, ino, jobs, turns[0]);
    RunKeepsGoing(Act(s, t, jobs, turns[0]), d, t, ino, jobs, turns[1..]);
  }

  /** Whoever has not written yet can take a turn. */
  lemma NobodyWaits(s: Writers, d: Disk, t: Cont, ino: nat, jobs: seq<Job>, turn: Turn)
    requires Going(s, d, t, ino, jobs) && Furthest(s.race.creators) > 0
    requires turn.who < |jobs| && turn.who !in s.order
    ensures CanTurn(s.race, t, turn) || CanWrite(s, jobs, turn.who)
  {
    if s.race.creators[turn.who].pc < 9 {
      NobodyBlocked(Bare(s, d, t, ino), d, t, ino, turn);
      CreatedData(d, t, ino);
    }
  }

  /** Every turn is carried out: nine for the creation, one for the bytes. */
  ghost predicate OnTime(s: Writers, who: nat, had: nat)
    requires who < |s.race.creators|
  {
    s.race.creators[who].pc == Least(9, had) && (who in s.order <==> had >= 10)
  }

  lemma ActIsOnTime(s: Writers, d: Disk, t: Cont, ino: nat, jobs: seq<Job>, turn: Turn, who: nat, had: nat)
    requires Going(s, d, t, ino, jobs) && Furthest(s.race.creators) > 0 && who < |jobs| && OnTime(s, who, had)
    ensures var s' := Act(s, t, jobs, turn);
            |s'.race.creators| == |jobs| && OnTime(s', who, if turn.who == who then had + 1 else had)
  {
    if turn.who < |jobs| && turn.who !in s.order {
      NobodyWaits(s, d, t, ino, jobs, turn);
    }
  }

  lemma OneTurnCounts(s: Writers, d: Disk, t: Cont, ino: nat, jobs: seq<Job>, turns: seq<Turn>, who: nat, had: nat)
    returns (s1: Writers, had1: nat)
    requires Going(s, d, t, ino, jobs) && Furthest(s.race.creators) > 0 && who < |jobs| && OnTime(s, who, had)
    requires turns != []
    ensures Going(s1, d, t, ino, jobs) && Furthest(s1.race.creators) > 0 && OnTime(s1, who, had1)
    ensures RunWrites(s, t, jobs, turns) == RunWrites(s1, t, jobs, turns[1..])
    ensures had + TurnsOf(turns, who) == had1 + TurnsOf(turns[1..], who)
  {
    had1 := if turns[0].who == who then had + 1 else had;
    s1 := Act(s, t, jobs, turns[0]);
    ActKeepsGoing(s, d, t, ino, jobs, turns[0]);
    ActIsOnTime(s, d, t, ino, jobs, turns[0], who, had);
    OneTurn(turns, who, had, had1);
    OneAct(s, t, jobs, turns);
  }

  lemma {:induction false} EveryTurnCounts(s: Writers, d: Disk, t: Cont, ino: nat, jobs: seq<Job>, turns: seq<Turn>, who: nat, had: nat)
    requires Going(s, d, t, ino, jobs) && Furthest(s.race.creators) > 0 && who < |jobs| && OnTime(s, who, had)
    ensures |RunWrites(s, t, jobs, turns).race.creators| == |jobs|
    ensures OnTime(RunWrites(s, t, jobs, turns), who, had + TurnsOf(turns, who))
    decreases |turns|
  {
    if turns != [] {
      var s1, had1 := OneTurnCounts(s, d, t, ino, jobs, turns, who, had);
      EveryTurnCounts(s1, d, t, ino, jobs, turns[1..], who, had1);
    }
  }

  lemma OneAct(s: Writers, t: Cont, jobs: seq<Job>, turns: seq<Turn>)
    requires turns != []
    ensures RunWrites(s, t, jobs, turns) == RunWrites(Act(s, t, jobs, turns[0]), t, jobs, turns[1..])
  {
  }

  lemma ScheduleIsOnTime(d: Disk, t: Cont, jobs: seq<Job>, turns: seq<Turn>, who: nat)
    requires turns != [] && turns[0].who < |jobs| && CanExtend(d, t, Opened(d, t, turns[0].alloc)) && who < |jobs|
    ensures |RunWrites(Begun(d, jobs), t, jobs, turns).race.creators| == |jobs|
    ensures OnTime(RunWrites(Begun(d, jobs), t, jobs, turns), who, TurnsOf(turns, who))
  {
    var ino, s := Opened(d, t, turns[0].alloc), Begun(d, jobs);
    FurthestIs(s.race.creators, 0);
    ActKeepsGoing(s, d, t, ino, jobs, turns[0]);
    var had := if turns[0].who == who then 1 else 0;
    OneTurn(turns, who, 0, had);
    EveryTurnCounts(Act(s, t, jobs, turns[0]), d, t, ino, jobs, turns[1..], who, had);
  }

  // ---- One after the other -------------------------------------------------------------------

  /** The same writes as calls of chunkfs_write, one after the other: `k` is the number of the new
      part, `alloc` the client's answer to the first, which creates it. */
  ghost function Serially(d: Disk, h: Loc, k: nat, jobs: seq<Job>, order: seq<nat>, alloc: Option<nat>): Disk
    requires Inv(d) && h in d.heads && HonestAlloc(d, TailOf(d, h), alloc) && NameJobs(order, jobs)
    decreases |order|
  {
    if order == [] then d
    else
      var job := jobs[order[0]];
      WriteInv(d, h, k * CONT_LEN + job.pos, job.bytes, alloc);
      Serially(WriteDisk(d, h, k * CONT_LEN + job.pos, job.bytes, alloc), h, k, jobs, order[1..], None)
  }

  lemma InPiece(k: nat, pos: nat)
    requires pos < CONT_LEN
    ensures (k * CONT_LEN + pos) / CONT_LEN == k && (k * CONT_LEN + pos) % CONT_LEN == pos
  {
  }

  /** All positions are inside one continuation. */
  predicate InOnePiece(jobs: seq<Job>) {
    forall w :: 0 <= w < |jobs| ==> jobs[w].pos < CONT_LEN
  }

  lemma InsideWrite(d: Disk, h: Loc, k: nat, job: Job)
    requires Inv(d) && h in d.heads && k < |Chain(d, h)| && job.pos < CONT_LEN
    ensures WriteDisk(d, h, k * CONT_LEN + job.pos, job.bytes, None)
         == SplicedAt(d, Chain(d, h)[k], job.pos, job.bytes)
  {
    InPiece(k, job.pos);
  }

  lemma OneInside(d: Disk, h: Loc, k: nat, job: Job)
    requires Inv(d) && h in d.heads && k < |Chain(d, h)| && Chain(d, h)[k] in d.inodes && job.pos < CONT_LEN
    ensures var p := Chain(d, h)[k];
            var d1 := WriteDisk(d, h, k * CONT_LEN + job.pos, job.bytes, None);
            && d1 == PutData(d, p, Splice(DataAt(d, p), job.pos, job.bytes))
            && Inv(d1) && h in d1.heads && Chain(d1, h) == Chain(d, h) && p in d1.inodes
            && DataAt(d1, p) == Splice(DataAt(d, p), job.pos, job.bytes)
  {
    InsideWrite(d, h, k, job);
    PutDataChain(d, Chain(d, h)[k], Splice(DataAt(d, Chain(d, h)[k]), job.pos, job.bytes), h);
  }

  /** Once the new part is there, the writes fill it in turn. */
  lemma {:induction false} SeriallyInside(d: Disk, h: Loc, k: nat, p: Loc, jobs: seq<Job>, order: seq<nat>)
    requires Inv(d) && h in d.heads && k < |Chain(d, h)| && p == Chain(d, h)[k] && p in d.inodes
    requires NameJobs(order, jobs) && InOnePiece(jobs)
    ensures Serially(d, h, k, jobs, order, None) == PutData(d, p, Bytes(DataAt(d, p), jobs, order))
    decreases |order|
  {
    if order == [] {
      PutSame(d, p);
    } else {
      var job := jobs[order[0]];
      OneInside(d, h, k, job);
      var d1 := WriteDisk(d, h, k * CONT_LEN + job.pos, job.bytes, None);
      SeriallyInside(d1, h, k, p, jobs, order[1..]);
      PutTwice(d, p, DataAt(d1, p), Bytes(DataAt(d1, p), jobs, order[1..]));
    }
  }

  lemma TailUnique(d: Disk, h: Loc, t: Cont)
    requires Inv(d) && IsTail(d, h, t)
    ensures t == TailOf(d, h)
  {
  }

  lemma OpensAs(d: Disk, t: Cont, ino: nat, alloc: nat)
    requires Opens(d, t, ino) && Opened(d, t, alloc) == ino
    ensures OpenResult(d, t, Some(alloc)) == Ok(ino) && HonestAlloc(d, t, Some(alloc))
  {
  }

  lemma PastWrite(d: Disk, h: Loc, t: Cont, ino: nat, o: nat, b: seq<byte>, alloc: Option<nat>)
    requires Inv(d) && h in d.heads && t == TailOf(d, h) && CanExtend(d, t, ino)
    requires OpenResult(d, t, alloc) == Ok(ino) && HonestAlloc(d, t, alloc)
    ensures AppendedWith(d, h, o, b, alloc) == SplicedAt(Created(d, t, ino), NewLoc(t, ino), o, b)
  {
  }

  lemma SplicedCreated(d: Disk, t: Cont, ino: nat, o: nat, b: seq<byte>)
    requires CanExtend(d, t, ino)
    ensures SplicedAt(Created(d, t, ino), NewLoc(t, ino), o, b)
         == PutData(Created(d, t, ino), NewLoc(t, ino), Splice(DataAt(d, NewLoc(t, ino)), o, b))
  {
    CreatedData(d, t, ino);
  }

  /** The first write creates the part. */
  lemma FirstWrite(d: Disk, h: Loc, t: Cont, ino: nat, offset: nat, o: nat, b: seq<byte>, alloc: Option<nat>)
    requires Inv(d) && h in d.heads && t == TailOf(d, h) && CanExtend(d, t, ino)
    requires OpenResult(d, t, alloc) == Ok(ino) && HonestAlloc(d, t, alloc)
    requires offset / CONT_LEN == |Chain(d, h)| && offset % CONT_LEN == o
    ensures WriteDisk(d, h, offset, b, alloc)
         == PutData(Created(d, t, ino), NewLoc(t, ino), Splice(DataAt(d, NewLoc(t, ino)), o, b))
  {
    WriteDiskPast(d, h, offset, b, alloc);
    PastWrite(d, h, t, ino, o, b, alloc);
    SplicedCreated(d, t, ino, o, b);
  }

  /** What a creation and one write to the new part leave. */
  lemma FirstPart(d: Disk, h: Loc, t: Cont, ino: nat, data: seq<byte>, d1: Disk)
    requires Inv(d) && IsTail(d, h, t) && Opens(d, t, ino) && CanExtend(d, t, ino)
    requires d1 == PutData(Created(d, t, ino), NewLoc(t, ino), data)
    ensures Inv(d1) && h in d1.heads && Chain(d1, h) == Chain(d, h) + [NewLoc(t, ino)]
    ensures NewLoc(t, ino) in d1.inodes && NewLoc(t, ino) in Created(d, t, ino).inodes && DataAt(d1, NewLoc(t, ino)) == data
  {
    CreatedData(d, t, ino);
    CrashAtomic(d, h, t, ino, 9, h);
    PutDataChain(Created(d, t, ino), NewLoc(t, ino), data, h);
  }

  lemma SeriallyStep(d: Disk, h: Loc, k: nat, jobs: seq<Job>, order: seq<nat>, alloc: Option<nat>, d1: Disk)
    requires Inv(d) && h in d.heads && HonestAlloc(d, TailOf(d, h), alloc) && NameJobs(order, jobs) && order != []
    requires Inv(d1) && h in d1.heads
    requires d1 == WriteDisk(d, h, k * CONT_LEN + jobs[order[0]].pos, jobs[order[0]].bytes, alloc)
    ensures Serially(d, h, k, jobs, order, alloc) == Serially(d1, h, k, jobs, order[1..], None)
  {
  }

  /** The first write creates the part, the others find it. */
  lemma SeriallyIs(d: Disk, h: Loc, t: Cont, ino: nat, jobs: seq<Job>, order: seq<nat>, alloc: nat)
    requires Inv(d) && IsTail(d, h, t) && Opens(d, t, ino) && CanExtend(d, t, ino) && Opened(d, t, alloc) == ino
    requires order != [] && NameJobs(order, jobs) && InOnePiece(jobs)
    ensures HonestAlloc(d, TailOf(d, h), Some(alloc))
    ensures Serially(d, h, |Chain(d, h)|, jobs, order, Some(alloc))
         == PutData(Created(d, t, ino), NewLoc(t, ino), Bytes(DataAt(d, NewLoc(t, ino)), jobs, order))
  {
    TailUnique(d, h, t);
    OpensAs(d, t, ino, alloc);
    var k, p, job := |Chain(d, h)|, NewLoc(t, ino), jobs[order[0]];
    InPiece(k, job.pos);
    FirstWrite(d, h, t, ino, k * CONT_LEN + job.pos, job.pos, job.bytes, Some(alloc));
    var data := Splice(DataAt(d, p), job.pos, job.bytes);
    var d1 := PutData(Created(d, t, ino), p, data);
    FirstPart(d, h, t, ino, data, d1);
    SeriallyStep(d, h, k, jobs, order, Some(alloc), d1);
    RestInside(Created(d, t, ino), d1, h, k, p, data, jobs, order[1..]);
  }

  lemma RestInside(d0: Disk, d1: Disk, h: Loc, k: nat, p: Loc, data: seq<byte>, jobs: seq<Job>, rest: seq<nat>)
    requires Inv(d1) && h in d1.heads && k < |Chain(d1, h)| && p == Chain(d1, h)[k] && p in d1.inodes
    requires p in d0.inodes && d1 == PutData(d0, p, data) && NameJobs(rest, jobs) && InOnePiece(jobs)
    ensures Serially(d1, h, k, jobs, rest, None) == PutData(d0, p, Bytes(data, jobs, rest))
  {
    SeriallyInside(d1, h, k, p, jobs, rest);
    PutTwice(d0, p, data, Bytes(data, jobs, rest));
  }

  // ---- The theorem ---------------------------------------------------------------------------

  /** Every job is in `order`, once. */
  ghost predicate IsPermutation(order: seq<nat>, n: nat) {
    && (forall i :: 0 <= i < |order| ==> order[i] < n)
    && (forall w: nat :: w < n ==> w in order)
    && (forall i, j :: 0 <= i < j < |order| ==> order[i] != order[j])
  }

  /** Any number of writers whose offsets lie in the piece after a file's last, any interleaving of
      their steps on disk: each is as far as its turns take it. As soon as everybody has had ten,
      all have written, and the disk is the one the same calls leave one after the other, in the
      order of the client's writes. So no byte is lost or misplaced, the new part is what those
      writes make of the opened file, and the other files are as before. */
  lemma RacingWritesAreSerial(d: Disk, h: Loc, t: Cont, jobs: seq<Job>, turns: seq<Turn>, g: Loc)
    requires Inv(d) && IsTail(d, h, t) && g in d.heads
    requires turns != [] && turns[0].who < |jobs| && Opens(d, t, Opened(d, t, turns[0].alloc))
    requires InOnePiece(jobs)
    ensures HonestAlloc(d, TailOf(d, h), Some(turns[0].alloc))
    ensures var s, ino := RunWrites(Begun(d, jobs), t, jobs, turns), Opened(d, t, turns[0].alloc);
            && |s.race.creators| == |jobs|
            && (forall w: nat :: w < |jobs| ==> OnTime(s, w, TurnsOf(turns, w)))
            && ((forall w: nat :: w < |jobs| ==> TurnsOf(turns, w) >= 10) ==>
                  && IsPermutation(s.order, |jobs|)
                  && s.race.disk == Serially(d, h, |Chain(d, h)|, jobs, s.order, Some(turns[0].alloc))
                  && Inv(s.race.disk) && g in s.race.disk.heads
                  && PartsOf(s.race.disk, g)
                     == if g == h then PartsOf(d, g) + [Bytes(DataAt(d, NewLoc(t, ino)), jobs, s.order)] else PartsOf(d, g))
  {
    var s, ino := RunWrites(Begun(d, jobs), t, jobs, turns), Opened(d, t, turns[0].alloc);
    TailCanExtend(d, h, t, ino);
    TailUnique(d, h, t);
    OpensAs(d, t, ino, turns[0].alloc);
    ScheduleGoes(d, t, jobs, turns);
    forall w: nat | w < |jobs|
      ensures |s.race.creators| == |jobs| && OnTime(s, w, TurnsOf(turns, w))
    {
      ScheduleIsOnTime(d, t, jobs, turns, w);
    }
    if forall w: nat :: w < |jobs| ==> TurnsOf(turns, w) >= 10 {
      forall w: nat | w < |jobs|
        ensures w in s.order
      {
        assert OnTime(s, w, TurnsOf(turns, w));
      }
      assert turns[0].who in s.order;
      AllWritten(s, d, h, t, ino, jobs, turns[0].alloc, g);
    }
  }

  lemma AllWritten(s: Writers, d: Disk, h: Loc, t: Cont, ino: nat, jobs: seq<Job>, alloc: nat, g: Loc)
    requires Inv(d) && IsTail(d, h, t) && Opens(d, t, ino) && Opened(d, t, alloc) == ino && g in d.heads
    requires Going(s, d, t, ino, jobs) && InOnePiece(jobs)
    requires s.order != [] && forall w: nat :: w < |jobs| ==> w in s.order
    ensures HonestAlloc(d, TailOf(d, h), Some(alloc)) && IsPermutation(s.order, |jobs|)
    ensures s.race.disk == Serially(d, h, |Chain(d, h)|, jobs, s.order, Some(alloc))
    ensures Inv(s.race.disk) && g in s.race.disk.heads
    ensures PartsOf(s.race.disk, g)
         == if g == h then PartsOf(d, g) + [Bytes(DataAt(d, NewLoc(t, ino)), jobs, s.order)] else PartsOf(d, g)
  {
    SeriallyIs(d, h, t, ino, jobs, s.order, alloc);
    NewPartOf(d, h, t, ino, Bytes(DataAt(d, NewLoc(t, ino)), jobs, s.order), g);
  }

  lemma NewPartOf(d: Disk, h: Loc, t: Cont, ino: nat, data: seq<byte>, g: Loc)
    requires Inv(d) && IsTail(d, h, t) && Opens(d, t, ino) && CanExtend(d, t, ino) && g in d.heads
    ensures var d' := PutData(Created(d, t, ino), NewLoc(t, ino), data);
            && Inv(d') && g in d'.heads
            && PartsOf(d', g) == if g == h then PartsOf(d, g) + [data] else PartsOf(d, g)
  {
    CrashAtomic(d, h, t, ino, 9, g);
    NewInNoChain(d, t, ino, g);
    CreatedData(d, t, ino);
    PutNewPart(d, Created(d, t, ino), NewLoc(t, ino), data, g, g == h);
  }
}

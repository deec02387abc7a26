/** Several creators at once. chunkfs_write takes no lock around creation, so writers that
    have found the same tail run chunkfs_create_continuation side by side; the schedule
    decides whose next step reaches the disk, and each step is one of the nine of
    `Creation.Step`. */
module Race {
  import opened Continuations
  import opened Walks
  import opened Creation

  /** One creator: its next step, and the inode its open returned (once it has opened). */
  datatype Creator = Creator(pc: nat, ino: nat)

  datatype State = State(disk: Disk, creators: seq<Creator>)

  /** `who` takes a step; `alloc` is what the client would allocate should the open have to
      create the file. */
  datatype Turn = Turn(who: nat, alloc: nat)

  /** The inode an open of the continuation of `t` gives. */
  function Opened(d: Disk, t: Cont, alloc: nat): nat {
    if NameOf(t.at) in d.names then d.names[NameOf(t.at)] else alloc
  }

  predicate CanTurn(s: State, t: Cont, turn: Turn) {
    && turn.who < |s.creators|
    && var k := s.creators[turn.who];
       k.pc < 9 && InRange(t.at) &&
       if k.pc == 0 then InRange(NewLoc(t, Opened(s.disk, t, turn.alloc)))
       else InRange(NewLoc(t, k.ino)) && NewLoc(t, k.ino) in s.disk.inodes && t.at in s.disk.inodes
  }

  function Take(s: State, t: Cont, turn: Turn): State
    requires CanTurn(s, t, turn)
  {
    var k := s.creators[turn.who];
    var ino := if k.pc == 0 then Opened(s.disk, t, turn.alloc) else k.ino;
    State(Step(s.disk, t, ino, k.pc), s.creators[turn.who := Creator(k.pc + 1, ino)])
  }

  /** A creator that has finished takes no more steps; its turns pass. */
  function Run(s: State, t: Cont, turns: seq<Turn>): State
    decreases |turns|
  {
    if turns == [] then s
    else if CanTurn(s, t, turns[0]) then Run(Take(s, t, turns[0]), t, turns[1..])
    else Run(s, t, turns[1..])
  }

  /** `n` creators, none of which has opened yet. */
  function Start(d: Disk, n: nat): State {
    State(d, seq(n, _ => Creator(0, 0)))
  }

  /** How far the most advanced creator is. */
  function Furthest(ks: seq<Creator>): (m: nat)
    ensures forall i :: 0 <= i < |ks| ==> ks[i].pc <= m
    ensures m == 0 || exists i :: 0 <= i < |ks| && ks[i].pc == m
  {
    if ks == [] then 0
    else
      var m := Furthest(ks[1..]);
      if ks[0].pc > m then ks[0].pc else m
  }

  lemma AttrAdvances(r: Rec, cd: ContData, j: nat, k: nat)
    requires k <= j <= 4 && k < 4
    ensures PutAttr(RecAfter(r, cd, j), cd, k) == RecAfter(r, cd, if j > k then j else k + 1)
  {
  }

  lemma NewRecordAdvances(d: Disk, t: Cont, ino: nat, j1: nat, j2: nat, k: nat)
    requires CanExtend(d, t, ino) && k <= j1 <= 4 && k < 4
    ensures NewLoc(t, ino) in Partial(d, t, ino, j1, j2).inodes
    ensures var s := Partial(d, t, ino, j1, j2);
            SetRec(s, NewLoc(t, ino), PutAttr(s.inodes[NewLoc(t, ino)].rec, NewData(t), k))
            == Partial(d, t, ino, if j1 > k then j1 else k + 1, j2)
  {
    var s, want := Partial(d, t, ino, j1, j2), Partial(d, t, ino, if j1 > k then j1 else k + 1, j2);
    var s' := SetRec(s, NewLoc(t, ino), PutAttr(s.inodes[NewLoc(t, ino)].rec, NewData(t), k));
    AttrAdvances(OpenOrCreate(d, t, ino).inodes[NewLoc(t, ino)].rec, NewData(t), j1, k);
    assert s'.inodes == want.inodes;
  }

  lemma TailRecordAdvances(d: Disk, t: Cont, ino: nat, j1: nat, j2: nat, k: nat)
    requires CanExtend(d, t, ino) && k <= j2 <= 4 && k < 4
    ensures t.at in Partial(d, t, ino, j1, j2).inodes
    ensures var s := Partial(d, t, ino, j1, j2);
            SetRec(s, t.at, PutAttr(s.inodes[t.at].rec, TailData(t, NewLoc(t, ino)), k))
            == Partial(d, t, ino, j1, if j2 > k then j2 else k + 1)
  {
    var s, want := Partial(d, t, ino, j1, j2), Partial(d, t, ino, j1, if j2 > k then j2 else k + 1);
    var s' := SetRec(s, t.at, PutAttr(s.inodes[t.at].rec, TailData(t, NewLoc(t, ino)), k));
    AttrAdvances(d.inodes[t.at].rec, TailData(t, NewLoc(t, ino)), j2, k);
    assert s'.inodes == want.inodes;
  }

  lemma OpenAdvances(d: Disk, t: Cont, ino: nat, m: nat)
    requires CanExtend(d, t, ino) && m <= 9
    ensures OpenOrCreate(StateAfter(d, t, ino, m), t, ino) == StateAfter(d, t, ino, if m > 0 then m else 1)
  {
    if m == 0 {
      var o := OpenOrCreate(d, t, ino);
      assert Partial(d, t, ino, 0, 0).inodes == o.inodes;
    }
  }

  /** A step no one is ahead of advances the disk by one step; a step already taken by someone
      changes nothing, since it writes what is there. */
  lemma StepAdvances(d: Disk, t: Cont, ino: nat, m: nat, k: nat)
    requires CanExtend(d, t, ino)
    requires k <= m <= 9 && k < 9
    ensures k >= 1 ==> NewLoc(t, ino) in StateAfter(d, t, ino, m).inodes
    ensures t.at in StateAfter(d, t, ino, m).inodes
    ensures Step(StateAfter(d, t, ino, m), t, ino, k) == StateAfter(d, t, ino, if m > k then m else k + 1)
  {
    var j1, j2 := if 1 <= m <= 5 then m - 1 else 4, if m <= 5 then 0 else m - 5;
    if k == 0 {
      OpenAdvances(d, t, ino, m);
    } else if k <= 4 {
      NewRecordAdvances(d, t, ino, j1, j2, k - 1);
    } else {
      TailRecordAdvances(d, t, ino, j1, j2, k - 5);
    }
  }

  /** The first `m` steps of one creator, taken in order. */
  ghost function StepsTaken(d: Disk, t: Cont, ino: nat, m: nat): (r: Disk)
    requires CanExtend(d, t, ino) && m <= 9
    ensures r == StateAfter(d, t, ino, m)
  {
    if m == 0 then d
    else
      StepAdvances(d, t, ino, m - 1, m - 1);
      Step(StepsTaken(d, t, ino, m - 1), t, ino, m - 1)
  }

  /** The inode every opener gets: the one the first open got. */
  ghost predicate Agreed(s: State, d: Disk, t: Cont, ino: nat)
    requires CanExtend(d, t, ino)
  {
    && Furthest(s.creators) <= 9
    && s.disk == StateAfter(d, t, ino, Furthest(s.creators))
    && forall i :: 0 <= i < |s.creators| ==> s.creators[i].pc > 0 ==> s.creators[i].ino == ino
  }

  lemma FurthestIs(ks: seq<Creator>, m: nat)
    requires forall i :: 0 <= i < |ks| ==> ks[i].pc <= m
    requires m == 0 || exists i :: 0 <= i < |ks| && ks[i].pc == m
    ensures Furthest(ks) == m
  {
  }

  lemma TakeKeepsAgreement(s: State, d: Disk, t: Cont, ino: nat, turn: Turn)
    requires CanExtend(d, t, ino) && Agreed(s, d, t, ino) && CanTurn(s, t, turn)
    requires s.creators[turn.who].pc == 0 ==> Opened(s.disk, t, turn.alloc) == ino
    ensures Agreed(Take(s, t, turn), d, t, ino)
  {
    var m, k := Furthest(s.creators), s.creators[turn.who].pc;
    StepAdvances(d, t, ino, m, k);
    var s' := Take(s, t, turn);
    assert s'.creators[turn.who].pc == k + 1;
    if m > k {
      var i :| 0 <= i < |s.creators| && s.creators[i].pc == m;
      assert s'.creators[i].pc == m;
    }
    FurthestIs(s'.creators, if m > k then m else k + 1);
  }

  /** Once a creator has opened the file, its name is there for the others. */
  lemma OpenedAgain(s: State, d: Disk, t: Cont, ino: nat, alloc: nat)
    requires CanExtend(d, t, ino) && Agreed(s, d, t, ino)
    requires Furthest(s.creators) > 0 || Opened(d, t, alloc) == ino
    ensures Opened(s.disk, t, alloc) == ino
  {
  }

  /** After a first open, whatever the later openers would have been given does not matter. */
  lemma {:induction false} RunKeepsAgreement(s: State, d: Disk, t: Cont, ino: nat, turns: seq<Turn>)
    requires CanExtend(d, t, ino) && Agreed(s, d, t, ino)
    requires Furthest(s.creators) > 0
    ensures Agreed(Run(s, t, turns), d, t, ino)
    ensures |Run(s, t, turns).creators| == |s.creators|
    decreases |turns|
  {
    if turns != [] {
      OpenedAgain(s, d, t, ino, turns[0].alloc);
      if CanTurn(s, t, turns[0]) {
        TakeKeepsAgreement(s, d, t, ino, turns[0]);
        var s' := Take(s, t, turns[0]);
        assert s'.creators[turns[0].who].pc > 0;
        RunKeepsAgreement(s', d, t, ino, turns[1..]);
      } else {
        RunKeepsAgreement(s, d, t, ino, turns[1..]);
      }
    }
  }

  /** No creator is ever held up. */
  lemma NobodyBlocked(s: State, d: Disk, t: Cont, ino: nat, turn: Turn)
    requires CanExtend(d, t, ino) && Agreed(s, d, t, ino) && Furthest(s.creators) > 0
    requires turn.who < |s.creators| && s.creators[turn.who].pc < 9
    ensures CanTurn(s, t, turn)
  {
    OpenedAgain(s, d, t, ino, turn.alloc);
    var k := s.creators[turn.who];
    if k.pc > 0 {
      StepAdvances(d, t, ino, Furthest(s.creators), k.pc);
    }
  }

  /** How many of the turns are given to `who`. */
  function TurnsOf(turns: seq<Turn>, who: nat): nat {
    if turns == [] then 0 else (if turns[0].who == who then 1 else 0) + TurnsOf(turns[1..], who)
  }

  lemma OneTurn(turns: seq<Turn>, who: nat, had: nat, had1: nat)
    requires turns != [] && had1 == if turns[0].who == who then had + 1 else had
    ensures had + TurnsOf(turns, who) == had1 + TurnsOf(turns[1..], who)
  {
  }

  function Least(a: nat, b: nat): nat {
    if a <= b then a else b
  }

  /** The race is under way, and `who` is as far as the `had` turns behind it take it. */
  ghost predicate UnderWay(s: State, d: Disk, t: Cont, ino: nat, who: nat, had: nat)
    requires CanExtend(d, t, ino)
  {
    && Agreed(s, d, t, ino) && Furthest(s.creators) > 0
    && who < |s.creators| && s.creators[who].pc == Least(9, had)
  }

  lemma OneRun(s: State, t: Cont, turns: seq<Turn>, s1: State)
    requires turns != [] && s1 == if CanTurn(s, t, turns[0]) then Take(s, t, turns[0]) else s
    ensures Run(s, t, turns) == Run(s1, t, turns[1..])
  {
  }

  /** A turn takes its creator one step on, unless it has finished, and nobody else. */
  lemma TakeOrPass(s: State, d: Disk, t: Cont, ino: nat, turn: Turn) returns (s1: State)
    requires CanExtend(d, t, ino) && Agreed(s, d, t, ino) && Furthest(s.creators) > 0
    ensures s1 == if CanTurn(s, t, turn) then Take(s, t, turn) else s
    ensures Agreed(s1, d, t, ino) && Furthest(s1.creators) > 0 && |s1.creators| == |s.creators|
    ensures forall i: nat :: i < |s.creators| ==>
              s1.creators[i].pc == if i == turn.who && s.creators[i].pc < 9 then s.creators[i].pc + 1 else s.creators[i].pc
  {
    s1 := if CanTurn(s, t, turn) then Take(s, t, turn) else s;
    if turn.who < |s.creators| && s.creators[turn.who].pc < 9 {
      OpenedAgain(s, d, t, ino, turn.alloc);
      NobodyBlocked(s, d, t, ino, turn);
      TakeKeepsAgreement(s, d, t, ino, turn);
      assert s1.creators[turn.who].pc > 0;
    }
  }

  lemma OneTurnCounts(s: State, d: Disk, t: Cont, ino: nat, turns: seq<Turn>, who: nat, had: nat) returns (s1: State, had1: nat)
    requires CanExtend(d, t, ino) && UnderWay(s, d, t, ino, who, had) && turns != []
    ensures UnderWay(s1, d, t, ino, who, had1) && |s1.creators| == |s.creators|
    ensures Run(s, t, turns) == Run(s1, t, turns[1..])
    ensures had + TurnsOf(turns, who) == had1 + TurnsOf(turns[1..], who)
  {
    had1 := if turns[0].who == who then had + 1 else had;
    OneTurn(turns, who, had, had1);
    s1 := TakeOrPass(s, d, t, ino, turns[0]);
    OneRun(s, t, turns, s1);
  }

  /** Every turn is carried out: a creator gets on by one step with each it is given, up to the
      ninth. */
  lemma {:induction false} EveryTurnCounts(s: State, d: Disk, t: Cont, ino: nat, turns: seq<Turn>, who: nat, had: nat)
    requires CanExtend(d, t, ino) && UnderWay(s, d, t, ino, who, had)
    ensures UnderWay(Run(s, t, turns), d, t, ino, who, had + TurnsOf(turns, who))
    ensures |Run(s, t, turns).creators| == |s.creators|
    decreases |turns|
  {
    if turns != [] {
      var s1, had1 := OneTurnCounts(s, d, t, ino, turns, who, had);
      EveryTurnCounts(s1, d, t, ino, turns[1..], who, had1);
    }
  }

  lemma FirstTurn(d: Disk, t: Cont, n: nat, turns: seq<Turn>)
    requires turns != [] && turns[0].who < n && CanExtend(d, t, Opened(d, t, turns[0].alloc))
    ensures CanTurn(Start(d, n), t, turns[0])
    ensures var s1 := Take(Start(d, n), t, turns[0]);
            && Agreed(s1, d, t, Opened(d, t, turns[0].alloc)) && Furthest(s1.creators) > 0
            && Run(Start(d, n), t, turns) == Run(s1, t, turns[1..]) && |s1.creators| == n
            && forall i :: 0 <= i < n ==> s1.creators[i].pc == if i == turns[0].who then 1 else 0
  {
    var s0 := Start(d, n);
    FurthestIs(s0.creators, 0);
    TakeKeepsAgreement(s0, d, t, Opened(d, t, turns[0].alloc), turns[0]);
    assert Take(s0, t, turns[0]).creators[turns[0].who].pc == 1;
  }

  /** Any number of creators after the same tail, any interleaving, any answers of the client:
      each is as far as its turns take it, and the disk is what one creator alone, as far as the
      most advanced one, would have left. */
  lemma RaceConverges(d: Disk, t: Cont, n: nat, turns: seq<Turn>)
    requires turns != [] && turns[0].who < n && CanExtend(d, t, Opened(d, t, turns[0].alloc))
    ensures var s, ino := Run(Start(d, n), t, turns), Opened(d, t, turns[0].alloc);
            && |s.creators| == n
            && (forall i: nat :: i < n ==> s.creators[i].pc == Least(9, TurnsOf(turns, i)))
            && 0 < Furthest(s.creators) <= 9
            && s.disk == StateAfter(d, t, ino, Furthest(s.creators))
  {
    var ino := Opened(d, t, turns[0].alloc);
    FirstTurn(d, t, n, turns);
    var s1 := Take(Start(d, n), t, turns[0]);
    RunKeepsAgreement(s1, d, t, ino, turns[1..]);
    StillAhead(s1, t, turns[1..]);
    forall i: nat | i < n
      ensures Run(Start(d, n), t, turns).creators[i].pc == Least(9, TurnsOf(turns, i))
    {
      var had := if i == turns[0].who then 1 else 0;
      OneTurn(turns, i, 0, had);
      EveryTurnCounts(s1, d, t, ino, turns[1..], i, had);
    }
  }

  /** So once everybody has had nine turns, all have finished, and the disk is the one of a single
      creation, its nine steps taken one after the other. */
  lemma RaceFinishes(d: Disk, t: Cont, n: nat, turns: seq<Turn>)
    requires turns != [] && turns[0].who < n && CanExtend(d, t, Opened(d, t, turns[0].alloc))
    requires forall i: nat :: i < n ==> TurnsOf(turns, i) >= 9
    ensures var s := Run(Start(d, n), t, turns);
            && |s.creators| == n && (forall i :: 0 <= i < n ==> s.creators[i].pc == 9)
            && s.disk == StepsTaken(d, t, Opened(d, t, turns[0].alloc), 9)
  {
    RaceConverges(d, t, n, turns);
    assert Run(Start(d, n), t, turns).creators[turns[0].who].pc == 9;
  }

  /** At every moment of the race every file shows its old chain or, for the file being
      extended, the old chain and one new element. */
  lemma RaceShowsOldOrNew(d: Disk, h: Loc, t: Cont, n: nat, turns: seq<Turn>, g: Loc)
    requires Inv(d) && IsTail(d, h, t)
    requires turns != [] && turns[0].who < n && Opens(d, t, Opened(d, t, turns[0].alloc))
    requires g in d.heads && g in d.inodes
    ensures var s, ino := Run(Start(d, n), t, turns), Opened(d, t, turns[0].alloc);
            && Inv(s.disk) && g in s.disk.inodes
            && (Chain(s.disk, g) == Chain(d, g)
                || (g == h && Chain(s.disk, g) == Chain(d, g) + [NewLoc(t, ino)]))
  {
    var s, ino := Run(Start(d, n), t, turns), Opened(d, t, turns[0].alloc);
    TailCanExtend(d, h, t, ino);
    RaceConverges(d, t, n, turns);
    CrashAtomic(d, h, t, ino, Furthest(s.creators), g);
  }

  lemma {:induction false} StillAhead(s: State, t: Cont, turns: seq<Turn>)
    requires Furthest(s.creators) > 0
    ensures Furthest(Run(s, t, turns).creators) > 0
    decreases |turns|
  {
    if turns != [] {
      if CanTurn(s, t, turns[0]) {
        var s' := Take(s, t, turns[0]);
        assert s'.creators[turns[0].who].pc > 0;
        StillAhead(s', t, turns[1..]);
      } else {
        StillAhead(s, t, turns[1..]);
      }
    }
  }

  // ---- A creator that comes late -------------------------------------------------------------

  /** The disk after a creator still at its first record write (step 1) acts on element `i`,
      which others have linked meanwhile. */
  function LateStep(d: Disk, t: Cont, ino: nat): Disk
    requires InRange(t.at) && InRange(NewLoc(t, ino)) && NewLoc(t, ino) in d.inodes && t.at in d.inodes
  {
    Step(d, t, ino, 1)
  }

  lemma LateIsCut(d: Disk, t: Cont, ino: nat)
    requires InRange(t.at) && InRange(NewLoc(t, ino)) && NewLoc(t, ino) in d.inodes && t.at in d.inodes
    ensures LateStep(d, t, ino) == CutAt(d, NewLoc(t, ino))
  {
  }

  /** The convergence above needs "no other append in between": a creator that only now
      writes the record of element `i` cuts the file off after it. The file keeps its chain
      exactly when that element is still the last. */
  lemma LateCreatorCuts(d: Disk, h: Loc, i: nat, t: Cont)
    requires Inv(d) && h in d.heads && 0 < i < |Chain(d, h)|
    requires t.at == Chain(d, h)[i - 1]
    ensures var ino := Chain(d, h)[i].ino;
            && InRange(t.at) && t.at in d.inodes
            && NewLoc(t, ino) == Chain(d, h)[i] && NewLoc(t, ino) in d.inodes && InRange(NewLoc(t, ino))
            && var d' := LateStep(d, t, ino);
               && Inv(d') && h in d'.heads
               && Chain(d', h) == Chain(d, h)[..i + 1]
               && (Chain(d', h) == Chain(d, h) <==> i + 1 == |Chain(d, h)|)
  {
    var c := Chain(d, h);
    LateTarget(d, h, i);
    CutChain(d, h, i);
    LateIsCut(d, t, c[i].ino);
    PrefixIff(c, i + 1);
  }

  lemma PrefixIff(c: seq<Loc>, n: nat)
    requires n <= |c|
    ensures c[..n] == c <==> n == |c|
  {
    assert |c[..n]| == n;
  }

  lemma LateTarget(d: Disk, h: Loc, i: nat)
    requires Inv(d) && h in d.heads && 0 < i < |Chain(d, h)|
    ensures var p, q := Chain(d, h)[i - 1], Chain(d, h)[i];
            && p in d.inodes && q in d.inodes && InRange(p) && InRange(q)
            && Linked(d, p) && q == Succ(d, p) && q.chunk == p.chunk + 1
  {
    ChainShape(d, h);
    assert ChainLink(d, Chain(d, h), i - 1);
  }
}

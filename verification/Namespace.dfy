/** The chunkfs namespace (namei.c): create, mkdir, symlink and mknod put the new client inode
    into the directory's chunk and pack its number with the chunk id taken from the directory's
    own number; link adds a name for an inode in the directory's client file system; lookup
    finds what the client file system has. */
module Namespace {
  import opened PackedNumber

  /** A client inode: the chunk whose client file system it is in, and its number there. */
  datatype Client = Client(chunk: nat, ino: u64)

  /** A name in a directory. */
  datatype Entry = Entry(dir: u64, name: string)

  /** `clients` maps each chunkfs inode number to the client inode behind it. A name is known to
      the client file system (`clientEntries`) and, unless a creation was given up half-way, to
      chunkfs (`entries`). */
  datatype Tree = Tree(
    root: u64,
    dirs: set<u64>,
    clients: map<u64, Client>,
    entries: map<Entry, u64>,
    clientEntries: map<Entry, Client>)

  datatype Op =
    | Make(at: Entry, isDir: bool, ino: u64, initialised: bool)  // create, mkdir, symlink, mknod
    | Link(target: u64, at: Entry)
    | Lookup(at: Entry, isDir: bool)

  /** chunkfs_start_inode: the number of the new inode. */
  function NewNumber(dir: u64, ino: u64): u64 {
    MacrosDecode(dir);
    MacroMake(MacroChunkId(dir), ino)
  }

  /** The client file system of the directory has made inode `ino`, and nothing else is done. */
  function HalfMade(t: Tree, at: Entry, ino: u64): Tree
    requires at.dir in t.clients
  {
    t.(clientEntries := t.clientEntries[at := Client(t.clients[at.dir].chunk, ino)])
  }

  /** The client inode is made, and the chunkfs inode for it gets the packed number and the
      name. */
  function Made(t: Tree, at: Entry, isDir: bool, ino: u64): Tree
    requires at.dir in t.clients
  {
    var u := NewNumber(at.dir, ino);
    var client := Client(t.clients[at.dir].chunk, ino);
    Tree(t.root,
         if isDir then t.dirs + {u} else t.dirs,
         t.clients[u := client],
         t.entries[at := u],
         t.clientEntries[at := client])
  }

  /** The chunkfs inode for a name the client has. */
  function Found(t: Tree, at: Entry, isDir: bool): Tree
    requires at in t.clientEntries
  {
    var client := t.clientEntries[at];
    var u := NewNumber(at.dir, client.ino);
    t.(clients := t.clients[u := client],
       dirs := if isDir then t.dirs + {u} else t.dirs,
       entries := t.entries[at := u])
  }

  function LinkedAs(t: Tree, target: u64, at: Entry): Tree
    requires target in t.clients
  {
    t.(entries := t.entries[at := target], clientEntries := t.clientEntries[at := t.clients[target]])
  }

  /** The client inode behind `u` is the one its number says, in the root's chunk. The root is
      special: its number is fixed (inode 12) whatever client inode it has. */
  ghost predicate PlacedAt(t: Tree, u: u64)
    requires u in t.clients
  {
    && t.clients[u].chunk == MacroChunkId(t.root)
    && MacroChunkId(u) == MacroChunkId(t.root)
    && (u != t.root ==> MacroIno(u) == t.clients[u].ino)
  }

  /** A name leads to the same client inode on both levels. */
  ghost predicate EntryOk(t: Tree, e: Entry)
    requires e in t.entries
  {
    && e.dir in t.dirs && t.entries[e] in t.clients
    && e in t.clientEntries && t.clientEntries[e] == t.clients[t.entries[e]]
  }

  /** What a client directory names is in the root's chunk; where only the client knows the name,
      the number can be packed and is not the one the root is fixed to. */
  ghost predicate ClientEntryOk(t: Tree, e: Entry)
    requires e in t.clientEntries
  {
    var c := t.clientEntries[e];
    c.chunk == MacroChunkId(t.root) && (e !in t.entries ==> c.ino < TWO28 && c.ino != MacroIno(t.root))
  }

  ghost predicate Placed(t: Tree) {
    && t.root in t.dirs && t.dirs <= t.clients.Keys
    && (forall u :: u in t.clients ==> PlacedAt(t, u))
    && (forall e :: e in t.entries ==> EntryOk(t, e))
    && (forall e :: e in t.clientEntries ==> ClientEntryOk(t, e))
  }

  /** The tree a mount begins with: the root alone. */
  lemma RootIsPlaced(root: u64, client: Client)
    requires client.chunk == MacroChunkId(root)
    ensures Placed(Tree(root, {root}, map[root := client], map[], map[]))
  {
  }

  /** The VFS passes directories and inodes it knows and makes only names that are not there; the
      client's number fits 28 bits and is not the one the root is fixed to. */
  ghost predicate Allowed(t: Tree, op: Op) {
    match op
    case Make(at, _, ino, _) => at.dir in t.dirs && at !in t.entries && ino < TWO28 && ino != MacroIno(t.root)
    case Link(target, at) => at.dir in t.dirs && at !in t.entries && target in t.clients
    case Lookup(at, _) => at.dir in t.dirs && at !in t.entries
  }

  function After(t: Tree, op: Op): Tree {
    match op
    case Make(at, isDir, ino, initialised) =>
      if at.dir !in t.clients then t else if initialised then Made(t, at, isDir, ino) else HalfMade(t, at, ino)
    case Link(target, at) => if target in t.clients then LinkedAs(t, target, at) else t
    case Lookup(at, isDir) => if at in t.clientEntries then Found(t, at, isDir) else t
  }

  /** A creation given up half-way is made good by the next lookup. */
  lemma LookupCompletes(t: Tree, at: Entry, isDir: bool, ino: u64)
    requires Placed(t) && Allowed(t, Make(at, isDir, ino, false))
    ensures After(After(t, Make(at, isDir, ino, false)), Lookup(at, isDir)) == After(t, Make(at, isDir, ino, true))
  {
  }

  /** The number of a new inode decodes to the client inode it was made for, in its directory's
      chunk, exactly when the client's number fits 28 bits. */
  lemma NewNumberIff(dir: u64, ino: u64)
    ensures MacroChunkId(NewNumber(dir, ino)) == MacroChunkId(dir) && MacroIno(NewNumber(dir, ino)) == ino
            <==> ino < TWO28
  {
    MacrosDecode(dir);
    RoundTripIff(MacroChunkId(dir), ino);
  }

  lemma StepPlaced(t: Tree, op: Op)
    requires Placed(t) && Allowed(t, op)
    ensures Placed(After(t, op)) && After(t, op).root == t.root
  {
    assert PlacedAt(t, op.at.dir);
    match op
    case Make(at, isDir, ino, initialised) =>
      HalfMadePlaced(t, at, ino);
      if initialised {
        FoundPlaced(HalfMade(t, at, ino), at, isDir);
      }
    case Link(target, at) =>
      assert PlacedAt(t, target);
      LinkedPlaced(t, target, at);
    case Lookup(at, isDir) =>
      if at in t.clientEntries {
        FoundPlaced(t, at, isDir);
      }
  }

  lemma HalfMadePlaced(t: Tree, at: Entry, ino: u64)
    requires Placed(t) && at.dir in t.dirs && PlacedAt(t, at.dir) && at !in t.entries
    requires ino < TWO28 && ino != MacroIno(t.root)
    ensures Placed(HalfMade(t, at, ino))
  {
    EntriesKept(t, HalfMade(t, at, ino), at);
  }

  lemma LinkedPlaced(t: Tree, target: u64, at: Entry)
    requires Placed(t) && at.dir in t.dirs && at !in t.entries
    requires target in t.clients && PlacedAt(t, target)
    ensures Placed(LinkedAs(t, target, at))
  {
    EntriesKept(t, LinkedAs(t, target, at), at);
  }

  /** Where clients and directories stay and at most one name is added, what held of each of them
      holds. */
  lemma EntriesKept(t: Tree, t': Tree, at: Entry)
    requires Placed(t) && at !in t.entries
    requires t'.root == t.root && t'.dirs == t.dirs && t'.clients == t.clients
    requires forall e :: e in t.entries ==> e in t'.entries && t'.entries[e] == t.entries[e]
    requires forall e :: e in t'.entries && e != at ==> e in t.entries
    requires forall e :: e in t'.clientEntries && e != at ==>
               e in t.clientEntries && t'.clientEntries[e] == t.clientEntries[e]
    requires forall e :: e in t.clientEntries ==> e in t'.clientEntries
    requires at in t'.entries ==> EntryOk(t', at)
    requires at in t'.clientEntries ==> ClientEntryOk(t', at)
    ensures Placed(t')
  {
    forall u | u in t'.clients
      ensures PlacedAt(t', u)
    {
      assert PlacedAt(t, u);
    }
    forall e | e in t'.entries
      ensures EntryOk(t', e)
    {
      assert e != at ==> EntryOk(t, e);
    }
    forall e | e in t'.clientEntries
      ensures ClientEntryOk(t', e)
    {
      assert e != at ==> ClientEntryOk(t, e);
    }
  }

  lemma FoundPlaced(t: Tree, at: Entry, isDir: bool)
    requires Placed(t) && at.dir in t.dirs && PlacedAt(t, at.dir) && at in t.clientEntries && at !in t.entries
    ensures Placed(Found(t, at, isDir))
  {
    var t', client := Found(t, at, isDir), t.clientEntries[at];
    var u := NewNumber(at.dir, client.ino);
    assert ClientEntryOk(t, at);
    NewNumberIff(at.dir, client.ino);
    FoundClients(t, t', u, client);
    forall e | e in t'.entries
      ensures EntryOk(t', e)
    {
      assert e != at ==> EntryOk(t, e);
    }
    forall e | e in t'.clientEntries
      ensures ClientEntryOk(t', e)
    {
      assert ClientEntryOk(t, e);
    }
  }

  /** Every known client keeps its place, the found one has it. */
  lemma FoundClients(t: Tree, t': Tree, u: u64, client: Client)
    requires forall v :: v in t.clients ==> PlacedAt(t, v)
    requires client.chunk == MacroChunkId(t.root) == MacroChunkId(u) && MacroIno(u) == client.ino && u != t.root
    requires t'.root == t.root && t'.clients == t.clients[u := client]
    ensures forall v :: v in t'.clients ==> PlacedAt(t', v)
    ensures forall v :: v in t.clients ==> v in t'.clients && t'.clients[v] == t.clients[v]
  {
    forall v | v in t'.clients
      ensures PlacedAt(t', v)
    {
      assert v in t.clients ==> PlacedAt(t, v);
    }
    assert u in t.clients ==> PlacedAt(t, u);
  }

  ghost predicate AllowedRun(t: Tree, ops: seq<Op>)
    decreases |ops|
  {
    ops == [] || (Allowed(t, ops[0]) && AllowedRun(After(t, ops[0]), ops[1..]))
  }

  function Run(t: Tree, ops: seq<Op>): Tree
    decreases |ops|
  {
    if ops == [] then t else Run(After(t, ops[0]), ops[1..])
  }

  /** Over whole runs of the namespace everything stays in the root's chunk, every number but
      the root's decodes to its client inode, and no name is in another chunk than the inode it
      names: hard links never cross chunks. Chunkfs and the client agree on every name. */
  lemma {:induction false} RunPlaced(t: Tree, ops: seq<Op>)
    requires Placed(t) && AllowedRun(t, ops)
    ensures Placed(Run(t, ops))
    ensures var t' := Run(t, ops);
            forall e :: e in t'.entries ==>
              && e.dir in t'.clients && t'.entries[e] in t'.clients
              && t'.clients[e.dir].chunk == t'.clients[t'.entries[e]].chunk == MacroChunkId(t.root)
              && e in t'.clientEntries && t'.clientEntries[e] == t'.clients[t'.entries[e]]
    decreases |ops|
  {
    if ops != [] {
      StepPlaced(t, ops[0]);
      RunPlaced(After(t, ops[0]), ops[1..]);
    } else {
      forall e | e in t.entries
        ensures EntryOk(t, e) && e.dir in t.clients && t.clients[e.dir].chunk == t.clients[t.entries[e]].chunk
      {
        assert EntryOk(t, e) && PlacedAt(t, e.dir) && PlacedAt(t, t.entries[e]);
      }
    }
  }

  // ---- Which inode a name leads to -------------------------------------------------------------

  /** `k` now leads to `v`, and nothing else has changed. */
  ghost predicate Binds<K, V>(m: map<K, V>, k: K, v: V, m': map<K, V>) {
    && k in m' && m'[k] == v
    && (forall j :: j in m' && j != k ==> j in m && m'[j] == m[j])
    && (forall j :: j in m ==> j in m')
  }

  /** A new name leads, on both levels, to the new client inode in the directory's chunk, by the
      number that decodes to both; it is a directory exactly when one was asked for. */
  lemma MakeDoes(t: Tree, at: Entry, isDir: bool, ino: u64)
    requires Placed(t) && Allowed(t, Make(at, isDir, ino, true))
    ensures at.dir in t.clients
    ensures var t', client := After(t, Make(at, isDir, ino, true)), Client(t.clients[at.dir].chunk, ino);
            && at in t'.entries
            && var u := t'.entries[at];
               && MacroChunkId(u) == MacroChunkId(at.dir) && MacroIno(u) == ino
               && Binds(t.entries, at, u, t'.entries) && Binds(t.clientEntries, at, client, t'.clientEntries)
               && Binds(t.clients, u, client, t'.clients)
               && t'.dirs - {u} == t.dirs - {u} && (u in t'.dirs <==> isDir || u in t.dirs) && t'.root == t.root
  {
    NewNumberIff(at.dir, ino);
  }

  /** A creation given up leaves the client's name and nothing else. */
  lemma HalfMakeDoes(t: Tree, at: Entry, isDir: bool, ino: u64)
    requires Placed(t) && Allowed(t, Make(at, isDir, ino, false))
    ensures at.dir in t.clients
    ensures var t' := After(t, Make(at, isDir, ino, false));
            && Binds(t.clientEntries, at, Client(t.clients[at.dir].chunk, ino), t'.clientEntries)
            && t'.entries == t.entries && t'.clients == t.clients && t'.dirs == t.dirs && t'.root == t.root
  {
  }

  /** A link leads to the inode linked, on both levels. */
  lemma LinkDoes(t: Tree, target: u64, at: Entry)
    requires Placed(t) && Allowed(t, Link(target, at))
    ensures var t' := After(t, Link(target, at));
            && Binds(t.entries, at, target, t'.entries)
            && Binds(t.clientEntries, at, t.clients[target], t'.clientEntries)
            && t'.clients == t.clients && t'.dirs == t.dirs && t'.root == t.root
  {
  }

  /** A lookup gives a name the client has the number its inode packs to, and else does nothing. */
  lemma LookupDoes(t: Tree, at: Entry, isDir: bool)
    requires Placed(t) && Allowed(t, Lookup(at, isDir))
    ensures var t' := After(t, Lookup(at, isDir));
            if at !in t.clientEntries then t' == t
            else
              && at in t'.entries
              && var u := t'.entries[at];
                 && MacroChunkId(u) == MacroChunkId(at.dir) && MacroIno(u) == t.clientEntries[at].ino
                 && Binds(t.entries, at, u, t'.entries) && Binds(t.clients, u, t.clientEntries[at], t'.clients)
                 && t'.dirs - {u} == t.dirs - {u} && (u in t'.dirs <==> isDir || u in t.dirs)
                 && t'.clientEntries == t.clientEntries && t'.root == t.root
  {
    if at in t.clientEntries {
      assert ClientEntryOk(t, at);
      NewNumberIff(at.dir, t.clientEntries[at].ino);
    }
  }

  /** Whatever else is made, a name keeps its inode, an inode its client, a directory stays one. */
  ghost predicate Keeps(t: Tree, t': Tree) {
    && (forall e :: e in t.entries ==> e in t'.entries && t'.entries[e] == t.entries[e])
    && (forall u :: u in t.clients ==> u in t'.clients && t'.clients[u] == t.clients[u])
    && t.dirs <= t'.dirs && t'.root == t.root
  }

  lemma StepKeeps(t: Tree, op: Op)
    requires Placed(t) && Allowed(t, op)
    ensures Keeps(t, After(t, op))
  {
    assert PlacedAt(t, op.at.dir);
    match op
    case Make(at, isDir, ino, initialised) =>
      if initialised {
        MakeDoes(t, at, isDir, ino);
        NumberKeeps(t, After(t, op).entries[at], Client(t.clients[at.dir].chunk, ino));
      }
    case Link(_, _) =>
    case Lookup(at, isDir) =>
      LookupDoes(t, at, isDir);
      if at in t.clientEntries {
        assert ClientEntryOk(t, at);
        NumberKeeps(t, After(t, op).entries[at], t.clientEntries[at]);
      }
  }

  /** A number in use already stands for that client inode. */
  lemma NumberKeeps(t: Tree, u: u64, client: Client)
    requires Placed(t) && client.chunk == MacroChunkId(t.root)
    requires MacroIno(u) == client.ino && client.ino != MacroIno(t.root)
    ensures u in t.clients ==> t.clients[u] == client
  {
    assert u in t.clients ==> PlacedAt(t, u);
  }

  lemma {:induction false} RunKeeps(t: Tree, ops: seq<Op>)
    requires Placed(t) && AllowedRun(t, ops)
    ensures Keeps(t, Run(t, ops))
    decreases |ops|
  {
    if ops != [] {
      StepPlaced(t, ops[0]);
      StepKeeps(t, ops[0]);
      RunKeeps(After(t, ops[0]), ops[1..]);
    }
  }

  /** What operation `op` has named still leads there in `t'`. */
  ghost predicate Honoured(root: u64, op: Op, t': Tree) {
    match op
    case Make(at, isDir, ino, initialised) =>
      initialised ==>
        && at in t'.entries && t'.entries[at] in t'.clients
        && t'.clients[t'.entries[at]] == Client(MacroChunkId(root), ino)
        && (isDir ==> t'.entries[at] in t'.dirs)
    case Link(target, at) => at in t'.entries && t'.entries[at] == target
    case Lookup(_, _) => true
  }

  lemma StepHonours(t: Tree, op: Op)
    requires Placed(t) && Allowed(t, op)
    ensures Honoured(t.root, op, After(t, op))
  {
    assert PlacedAt(t, op.at.dir);
    match op
    case Make(at, isDir, ino, initialised) =>
      if initialised {
        MakeDoes(t, at, isDir, ino);
      }
    case Link(target, at) => LinkDoes(t, target, at);
    case Lookup(_, _) =>
  }

  /** At the end of a run every name made on the way leads to the inode it was made for: a link to
      the inode linked, a new name to the inode the client gave. */
  lemma {:induction false} RunHonours(t: Tree, ops: seq<Op>, i: nat)
    requires Placed(t) && AllowedRun(t, ops) && i < |ops|
    ensures Honoured(t.root, ops[i], Run(t, ops))
    decreases |ops|
  {
    StepPlaced(t, ops[0]);
    if i > 0 {
      RunHonours(After(t, ops[0]), ops[1..], i - 1);
    } else {
      StepHonours(t, ops[0]);
      RunKeeps(After(t, ops[0]), ops[1..]);
    }
  }

  /** And no other name appears. */
  lemma {:induction false} RunNamesOnly(t: Tree, ops: seq<Op>, e: Entry)
    requires Placed(t) && AllowedRun(t, ops) && e in Run(t, ops).entries
    ensures e in t.entries || exists i :: 0 <= i < |ops| && ops[i].at == e
    decreases |ops|
  {
    if ops != [] {
      StepPlaced(t, ops[0]);
      RunNamesOnly(After(t, ops[0]), ops[1..], e);
      if e !in After(t, ops[0]).entries {
        var i :| 0 <= i < |ops[1..]| && ops[1..][i].at == e;
        assert ops[i + 1].at == e;
      }
    }
  }

  /** The mounted namespace. */
  class Mounted {
    var root: u64
    var dirs: set<u64>
    var clients: map<u64, Client>
    var entries: map<Entry, u64>
    var clientEntries: map<Entry, Client>

    function Contents(): Tree
      reads this
    {
      Tree(root, dirs, clients, entries, clientEntries)
    }

    /** chunkfs_create, chunkfs_mkdir, chunkfs_symlink, chunkfs_mknod. `ino` is the number the
        client gives. If the client refuses, nothing has changed; if it then refuses the first
        record, its own name for the new inode stays. */
    method MakeNode(at: Entry, isDir: bool, ino: u64, refused: bool, initialised: bool) returns (made: bool)
      requires at.dir in dirs && at.dir in clients
      modifies this
      ensures made == (!refused && initialised)
      ensures Contents() == if refused then old(Contents()) else After(old(Contents()), Make(at, isDir, ino, initialised))
    {
      if refused {
        return false;
      }
      var clientFs := clients[at.dir].chunk;
      clientEntries := clientEntries[at := Client(clientFs, ino)];
      if !initialised {
        return false;
      }
      StartInode(at, isDir);
      made := true;
    }

    /** chunkfs_start_inode and d_instantiate, for a name the client has. */
    method StartInode(at: Entry, isDir: bool)
      requires at in clientEntries
      modifies this
      ensures Contents() == Found(old(Contents()), at, isDir)
    {
      var chunkId := MacroChunkId(at.dir);
      var client := clientEntries[at];
      MacrosDecode(at.dir);
      var number := MacroMake(chunkId, client.ino);
      clients := clients[number := client];
      if isDir {
        dirs := dirs + {number};
      }
      entries := entries[at := number];
    }

    /** chunkfs_lookup: a name the client does not have stays unknown. */
    method LookupName(at: Entry, isDir: bool, initialised: bool) returns (found: bool)
      requires at.dir in dirs
      modifies this
      ensures found == (at in old(clientEntries) && initialised)
      ensures Contents() == if initialised then After(old(Contents()), Lookup(at, isDir)) else old(Contents())
    {
      if at !in clientEntries || !initialised {
        return false;
      }
      StartInode(at, isDir);
      found := true;
    }

    /** chunkfs_link */
    method AddLink(target: u64, at: Entry, refused: bool) returns (made: bool)
      requires at.dir in dirs && target in clients
      modifies this`entries, this`clientEntries
      ensures made == !refused
      ensures Contents() == if made then After(old(Contents()), Link(target, at)) else old(Contents())
      ensures made ==> entries == old(entries)[at := target] && clientEntries == old(clientEntries)[at := clients[target]]
    {
      if refused {
        return false;
      }
      clientEntries := clientEntries[at := clients[target]];
      entries := entries[at := target];
      made := true;
    }
  }
}

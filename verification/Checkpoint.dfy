/**
  The checkpoint store as a state machine: clients open, write and close streams, read committed blocks and commit
  headers; the machine can crash between any two disk writes, after which the file is reopened.
 */
module Checkpoint {
  import opened Bytes
  import opened Collections
  import opened MetaStream
  import opened FreeList
  import opened Allocations

  // ---------------------------------------------------------------- commit and reopen

  datatype Commit = Commit(m: Manager, header: Header, chain: seq<nat>, log: seq<DiskWrite>)

  /**
    `write_header`. The block count is taken after the free list has been saved when `lateCount` holds, which is
    the intent, and before it otherwise, which is the order of the code.
   */
  function WriteHeader(m: Manager, metaBlock: nat, lateCount: bool): Commit
  {
    HeaderAfter(m, metaBlock, lateCount, SaveFreeList(m))
  }

  /** The rest of `write_header` once the free list has been saved as `s`. */
  function HeaderAfter(m: Manager, metaBlock: nat, lateCount: bool, s: Saved): Commit
  {
    var h := Header(m.iteration + 1, metaBlock, s.id, if lateCount then s.m.maxBlock else m.maxBlock);
    Commit(s.m.(iteration := m.iteration + 1, active := if m.active == 1 then 0 else 1, metaBlock := metaBlock,
                freeList := m.usedBlocks, usedBlocks := []),
           h, s.chain, s.log + [HeaderWrite(if m.active == 1 then 0 else 1, h)])
  }

  /** `create_new_database` on an existing file: the header with the greater iteration wins. */
  function Reopen(d: Disk): Manager
  {
    var active := if d.h1.iteration > d.h2.iteration then 0 else 1;
    var h := if active == 0 then d.h1 else d.h2;
    var l := if h.freeListId == INVALID_BLOCK then Ids([], Reader(0, ZeroBuffer(), LINK, 0), [])
             else LoadFreeList(d, h.freeListId);
    Manager(l.ids, l.loads, h.blockCount, h.metaBlock, h.iteration, active)
  }

  // ---------------------------------------------------------------- state

  /** A stream being written in the current epoch, with everything given to it so far. */
  datatype OpenStream = OpenStream(w: Writer, chain: seq<nat>, bytes: seq<Byte>, closed: bool)

  datatype Stream = Stream(chain: seq<nat>, bytes: seq<Byte>)

  /**
    What a commit made durable: its header, the stream the header leads to (an empty chain if there is none), the
    streams closed by then, and the free list saved with it.
   */
  datatype Snapshot = Snapshot(header: Header, meta: Stream, streams: map<nat, Stream>,
                               freeChain: seq<nat>, freeIds: seq<nat>)

  datatype Store = Store(disk: Disk, m: Manager, writers: map<nat, OpenStream>, last: Snapshot)

  datatype Op =
    | Open(k: nat)
    | Write(k: nat, data: seq<Byte>)
    | Close(k: nat)
    | ReadBlock(id: nat)
    | CommitHeader(metaBlock: nat)

  /** The state after an operation, the blocks it took and its disk writes in program order. */
  datatype Effect = Effect(s: Store, ids: seq<nat>, log: seq<DiskWrite>)

  /** `create_new_database` on a new file. */
  function Create(): Store
  {
    var h1 := Header(0, INVALID_BLOCK, INVALID_BLOCK, 0);
    var h2 := Header(1, INVALID_BLOCK, INVALID_BLOCK, 0);
    Store(Disk(h1, h2, map[]), Manager([], [], 0, INVALID_BLOCK, 1, 1), map[], 
          Snapshot(h2, NoStream(), map[], [], []))
  }

  function ClosedStreams(ws: map<nat, OpenStream>): map<nat, Stream>
  {
    map k | k in ws && ws[k].closed :: Stream(ws[k].chain, ws[k].bytes)
  }

  function StillOpen(ws: map<nat, OpenStream>): map<nat, OpenStream>
  {
    map k | k in ws && !ws[k].closed :: ws[k]
  }

  function NoStream(): Stream
  {
    Stream([], [])
  }

  ghost predicate ClosedNow(ws: map<nat, OpenStream>, st: Stream)
  {
    exists k :: k in ws && ws[k].closed && Stream(ws[k].chain, ws[k].bytes) == st
  }

  ghost predicate Committed(c: Snapshot, st: Stream)
  {
    st == c.meta || exists k :: k in c.streams && c.streams[k] == st
  }

  /** `st` starts at block `meta` and stays whole over the next commit. */
  ghost predicate CanLead(s: Store, meta: nat, st: Stream)
  {
    Leads(s.writers, s.last.meta, s.last.streams, s.m.usedBlocks, meta, st)
  }

  /** The same, by the parts of the store it depends on. */
  ghost predicate Leads(ws: map<nat, OpenStream>, kept: Stream, streams: map<nat, Stream>, used: seq<nat>,
                        meta: nat, st: Stream)
  {
    && st.chain != [] && st.chain[0] == meta
    && (ClosedNow(ws, st) ||
        ((st == kept || exists k :: k in streams && streams[k] == st) && NoneShared(st.chain, used)))
  }

  /**
    What a client can check before it commits with `meta` as its meta block: that block starts a stream closed since
    the last commit, or one of the last commit no block of which was read since.
   */
  ghost predicate SafeMeta(s: Store, meta: nat)
  {
    meta == INVALID_BLOCK || exists st :: CanLead(s, meta, st)
  }

  /** The stream a header with meta block `meta` leads to once it is committed. */
  ghost function MetaOf(s: Store, meta: nat): Stream
  {
    MetaFrom(s.writers, s.last.meta, s.last.streams, s.m.usedBlocks, meta)
  }

  ghost function MetaFrom(ws: map<nat, OpenStream>, kept: Stream, streams: map<nat, Stream>, used: seq<nat>, meta: nat)
    : Stream
  {
    if exists st :: Leads(ws, kept, streams, used, meta, st) then
      var st :| Leads(ws, kept, streams, used, meta, st);
      st
    else
      NoStream()
  }

  predicate CanAttempt(s: Store, op: Op)
  {
    match op
    case Open(k) => k !in s.writers
    case Write(k, _) => k in s.writers && !s.writers[k].closed && WriterShape(s.writers[k].w)
    case Close(k) => k in s.writers && !s.writers[k].closed
    case ReadBlock(_) => true
    case CommitHeader(_) => true
  }

  ghost function Do(s: Store, op: Op): Effect
    requires CanAttempt(s, op)
  {
    match op
    case Open(k) =>
      var r := OpenWriter(s.m);
      Effect(s.(m := r.m, writers := s.writers[k := OpenStream(r.w, r.ids, [], false)]), r.ids, [])
    case Write(k, data) =>
      WriteEffect(s, k, data, WriteData(s.m, s.writers[k].w, data))
    case Close(k) =>
      var o := s.writers[k];
      Effect(s.(disk := Apply(s.disk, FlushLog(o.w)), writers := s.writers[k := o.(w := Flush(o.w), closed := true)]),
             [], FlushLog(o.w))
    case ReadBlock(id) =>
      Effect(s.(m := s.m.(usedBlocks := s.m.usedBlocks + [id])), [], [])
    case CommitHeader(meta) =>
      CommitEffect(s, meta, WriteHeader(s.m, meta, true))
  }

  /** Stream `k` was written to, and the writer came back with `r`. */
  function WriteEffect(s: Store, k: nat, data: seq<Byte>, r: Written): Effect
    requires k in s.writers
  {
    var o := s.writers[k];
    Effect(Store(Apply(s.disk, r.log), r.m,
                 s.writers[k := OpenStream(r.w, o.chain + r.ids, o.bytes + data, false)], s.last),
           r.ids, r.log)
  }

  /** A header was committed as `c`. */
  ghost function CommitEffect(s: Store, meta: nat, c: Commit): Effect
  {
    Effect(Store(Apply(s.disk, c.log), c.m, StillOpen(s.writers),
                 Snapshot(c.header, MetaOf(s, meta), ClosedStreams(s.writers), c.chain, s.m.usedBlocks)),
           c.chain, c.log)
  }

  /** Blocks a snapshot needs. */
  ghost function Live(c: Snapshot): set<nat>
  {
    Elems(c.meta.chain) + StreamBlocks(c.streams) + Elems(c.freeChain)
  }

  ghost function StreamBlocks(streams: map<nat, Stream>): set<nat>
  {
    set k, x | k in streams && x in streams[k].chain :: x
  }

  /** Blocks taken by the streams of the current epoch. */
  ghost function Owned(ws: map<nat, OpenStream>): set<nat>
  {
    set k, x | k in ws && x in ws[k].chain :: x
  }

  ghost function Taken(s: Store): set<nat>
  {
    Live(s.last) + Owned(s.writers)
  }

  /**
    The client's side of the contract: a block is read only while the last snapshot needs it and at most once per
    checkpoint, and the file stays within 64-bit offsets.
   */
  ghost predicate Enabled(s: Store, op: Op)
  {
    && CanAttempt(s, op)
    && Do(s, op).s.m.maxBlock <= MAX_BLOCKS
    && (op.ReadBlock? ==> op.id in Live(s.last) && op.id !in s.m.usedBlocks)
  }

  // ---------------------------------------------------------------- invariant

  ghost predicate StreamOk(blocks: map<nat, seq<Byte>>, o: OpenStream)
  {
    if o.closed then Stored(blocks, o.chain, o.bytes)
    else Holds(blocks, o.w, o.chain, o.bytes) && Settled(o.chain, o.bytes)
  }

  ghost predicate WritersOk(blocks: map<nat, seq<Byte>>, ws: map<nat, OpenStream>)
  {
    && (forall k :: k in ws ==> StreamOk(blocks, ws[k]))
    && (forall j, k :: j in ws && k in ws && j != k ==> Elems(ws[j].chain) !! Elems(ws[k].chain))
  }

  /** The disk still holds every byte of the snapshot. */
  ghost predicate SnapshotOnDisk(blocks: map<nat, seq<Byte>>, c: Snapshot)
  {
    && (c.meta != NoStream() ==>
          Stored(blocks, c.meta.chain, c.meta.bytes) && c.meta.chain[0] == c.header.metaBlock)
    && (forall k :: k in c.streams ==> Stored(blocks, c.streams[k].chain, c.streams[k].bytes))
    && (c.freeIds == [] ==> c.freeChain == [] && c.header.freeListId == INVALID_BLOCK)
    && (c.freeIds != [] ==>
          && Stored(blocks, c.freeChain, FreeListBytes(c.freeIds))
          && c.freeChain[0] == c.header.freeListId)
  }

  /** Reloading the snapshot gives a manager that cannot hand out a block of it. */
  ghost predicate Reloadable(c: Snapshot)
  {
    && |c.freeIds| < U64_LIMIT
    && c.header.blockCount <= MAX_BLOCKS
    && NoDup(c.freeChain)
    && Fresh(RestoredManager(c, 0), Live(c))
  }

  /** The manager a reopen must produce for snapshot `c`. */
  ghost function RestoredManager(c: Snapshot, active: nat): Manager
  {
    Manager(c.freeIds, c.freeChain, c.header.blockCount, c.header.metaBlock, c.header.iteration, active)
  }

  /** The active slot holds the header of the last snapshot and the other slot an older one. */
  ghost predicate Slots(d: Disk, m: Manager, h: Header)
  {
    && m.iteration == h.iteration && m.metaBlock == h.metaBlock
    && (m.active == 0 || m.active == 1)
    && (m.active == 0 ==> d.h1 == h && d.h2.iteration < h.iteration)
    && (m.active == 1 ==> d.h2 == h && d.h1.iteration < h.iteration)
  }

  ghost predicate Inv(s: Store)
  {
    && Slots(s.disk, s.m, s.last.header)
    && SnapshotOnDisk(s.disk.blocks, s.last)
    && Reloadable(s.last)
    && WritersOk(s.disk.blocks, s.writers)
    && Live(s.last) !! Owned(s.writers)
    && Fresh(s.m, Taken(s))
    && s.m.maxBlock <= MAX_BLOCKS
    && NoDup(s.m.usedBlocks) && Elems(s.m.usedBlocks) <= Live(s.last)
  }

  /** A new file, opened as an old one: nothing free, nothing used, no blocks, no meta block, the second header. */
  lemma NewFile()
    ensures Create().disk == Disk(Header(0, 0xffff_ffff_ffff_ffff, 0xffff_ffff_ffff_ffff, 0),
                                  Header(1, 0xffff_ffff_ffff_ffff, 0xffff_ffff_ffff_ffff, 0), map[])
    ensures Reopen(Create().disk) == Create().m == Manager([], [], 0, 0xffff_ffff_ffff_ffff, 1, 1)
  {
  }

  /** Whatever two headers a file has, the first is taken only if it is strictly newer, and it is followed in full. */
  lemma ReopenPicks(d: Disk)
    ensures var m := Reopen(d);
            var h := if d.h1.iteration > d.h2.iteration then d.h1 else d.h2;
            && m.active == (if d.h1.iteration > d.h2.iteration then 0 else 1)
            && m.iteration == h.iteration && m.metaBlock == h.metaBlock && m.maxBlock == h.blockCount
            && (h.freeListId == 0xffff_ffff_ffff_ffff ==> m.freeList == [] && m.usedBlocks == [])
  {
    hide LoadFreeList;
  }

  lemma CreateInv()
    ensures Inv(Create())
  {
    var s := Create();
    assert Taken(s) == {} && Live(s.last) == {};
  }

  // ---------------------------------------------------------------- frames

  lemma SnapshotFrame(a: map<nat, seq<Byte>>, b: map<nat, seq<Byte>>, c: Snapshot)
    requires SnapshotOnDisk(a, c) && SameOn(a, b, Live(c))
    ensures SnapshotOnDisk(b, c)
  {
    hide Stored;
    forall k | k in c.streams
      ensures Stored(b, c.streams[k].chain, c.streams[k].bytes)
    {
      assert Elems(c.streams[k].chain) <= StreamBlocks(c.streams);
      StoredFrame(a, b, c.streams[k].chain, c.streams[k].bytes);
    }
    if c.meta != NoStream() {
      StoredFrame(a, b, c.meta.chain, c.meta.bytes);
    }
    if c.freeIds != [] {
      StoredFrame(a, b, c.freeChain, FreeListBytes(c.freeIds));
    }
  }

  lemma StreamFrame(a: map<nat, seq<Byte>>, b: map<nat, seq<Byte>>, o: OpenStream)
    requires StreamOk(a, o) && SameOn(a, b, Elems(o.chain))
    ensures StreamOk(b, o)
  {
    hide Stored, Holds;
    if o.closed {
      StoredFrame(a, b, o.chain, o.bytes);
    } else {
      HoldsFrame(a, b, o.w, o.chain, o.bytes);
    }
  }

  /** Writing blocks outside a snapshot and outside the other streams leaves all of them as they were. */
  lemma {:induction false} WritersFrame(d: Disk, log: seq<DiskWrite>, ids: set<nat>, ws: map<nat, OpenStream>,
                                        k: nat, o: OpenStream)
    requires WritersOk(d.blocks, ws) && WritesOnly(log, ids)
    requires forall j :: j in ws && j != k ==> Elems(ws[j].chain) !! ids && Elems(ws[j].chain) !! Elems(o.chain)
    requires StreamOk(Apply(d, log).blocks, o)
    ensures WritersOk(Apply(d, log).blocks, ws[k := o])
  {
    var d', ws' := Apply(d, log), ws[k := o];
    hide StreamOk, Elems, WritesOnly;
    forall j | j in ws'
      ensures StreamOk(d'.blocks, ws'[j])
    {
      if j != k {
        WritesOnlyFrame(d, log, ids, Elems(ws[j].chain));
        StreamFrame(d.blocks, d'.blocks, ws[j]);
      }
    }
  }

  lemma OwnedUpdate(ws: map<nat, OpenStream>, k: nat, o: OpenStream, ids: seq<nat>)
    requires k in ws ==> o.chain == ws[k].chain + ids
    requires k !in ws ==> o.chain == ids
    ensures Owned(ws[k := o]) == Owned(ws) + Elems(ids)
  {
    var ws' := ws[k := o];
    forall x | x in Owned(ws)
      ensures x in Owned(ws')
    {
      var j :| j in ws && x in ws[j].chain;
      assert j in ws' && x in ws'[j].chain;
    }
    forall x | x in Elems(ids)
      ensures x in Owned(ws')
    {
      assert k in ws' && x in ws'[k].chain;
    }
  }

  /** Every other stream's blocks are apart from the blocks of stream `k` and from anything not yet taken. */
  lemma OthersApart(s: Store, k: nat, ids: set<nat>)
    requires Inv(s) && ids !! Taken(s)
    ensures forall j :: j in s.writers && j != k ==> Elems(s.writers[j].chain) !! ids
    ensures k in s.writers ==>
              forall j :: j in s.writers && j != k ==> Elems(s.writers[j].chain) !! Elems(s.writers[k].chain)
    ensures k in s.writers ==> Elems(s.writers[k].chain) <= Taken(s) && Elems(s.writers[k].chain) !! Live(s.last)
  {
    hide StreamOk, Fresh, Slots, SnapshotOnDisk, Reloadable, NoDup;
    forall j | j in s.writers
      ensures Elems(s.writers[j].chain) <= Owned(s.writers)
    {
    }
  }

  // ---------------------------------------------------------------- every step keeps the invariant

  lemma OpenInv(s: Store, k: nat)
    requires Inv(s) && Enabled(s, Open(k))
    ensures Inv(Do(s, Open(k)).s)
  {
    var r := OpenWriter(s.m);
    var o := OpenStream(r.w, r.ids, [], false);
    var s' := Do(s, Open(k)).s;
    AllocFresh(s.m, Taken(s));
    assert StreamOk(s.disk.blocks, o) by {
      assert r.w.buf[LINK..LINK] == [];
    }
    assert Elems(r.ids) == {r.w.id};
    OthersApart(s, k, {r.w.id});
    OwnedUpdate(s.writers, k, o, r.ids);
    assert Taken(s') == Taken(s) + {r.w.id};
    hide StreamOk, Elems, Fresh, SnapshotOnDisk, Reloadable, NoDup, Owned, Live;
    WritersFrame(s.disk, [], {}, s.writers, k, o);
  }

  lemma WriteInv(s: Store, k: nat, data: seq<Byte>)
    requires Inv(s) && Enabled(s, Write(k, data))
    ensures Inv(Do(s, Write(k, data)).s)
  {
    hide StreamOk, Elems, Fresh, NoDup, Owned, Reloadable, SnapshotOnDisk, WriteData;
    var o := s.writers[k];
    var r := WriteData(s.m, o.w, data);
    var o' := OpenStream(r.w, o.chain + r.ids, o.bytes + data, false);
    var s' := Do(s, Write(k, data)).s;
    WriteDataFresh(s.m, o.w, data, Taken(s));
    OthersApart(s, k, Elems(r.ids));
    OwnedUpdate(s.writers, k, o', r.ids);
    assert Taken(s') == Taken(s) + Elems(r.ids);
    WriteStreamOk(s, k, data);
    ElemsConcat(o.chain, r.ids);
    OwnBlock(s, k);
    WritersFrame(s.disk, r.log, {o.w.id} + Elems(r.ids), s.writers, k, o');
    WritesOnlyFrame(s.disk, r.log, {o.w.id} + Elems(r.ids), Live(s.last));
    SnapshotFrame(s.disk.blocks, s'.disk.blocks, s.last);
  }

  lemma OwnBlock(s: Store, k: nat)
    requires Inv(s) && k in s.writers && !s.writers[k].closed
    ensures s.writers[k].w.id in Elems(s.writers[k].chain)
  {
    assert StreamOk(s.disk.blocks, s.writers[k]);
  }

  lemma {:induction false} WriteStreamOk(s: Store, k: nat, data: seq<Byte>)
    requires Inv(s) && Enabled(s, Write(k, data))
    ensures var o := s.writers[k];
            var r := WriteData(s.m, o.w, data);
            StreamOk(Apply(s.disk, r.log).blocks, OpenStream(r.w, o.chain + r.ids, o.bytes + data, false))
  {
    var o := s.writers[k];
    var r := WriteData(s.m, o.w, data);
    assert StreamOk(s.disk.blocks, o);
    OthersApart(s, k, {});
    hide SnapshotOnDisk, Reloadable, Fresh, NoDup, Owned, Live, Elems, WriteData, FullPrefix;
    WriteDataAppends(s.disk, s.m, o.w, data, o.chain, o.bytes, Taken(s));
    WriteDataSettles(s.m, o.w, data);
    if data == [] && o.w.offset == LINK {
      assert r == Written(s.m, r.w, [], []) by {
        WriteNothing(s.m, o.w);
      }
      assert o.chain + [] == o.chain && o.bytes + [] == o.bytes;
    } else {
      HoldsSettled(Apply(s.disk, r.log), r.w, o.chain + r.ids, o.bytes + data);
    }
  }

  lemma {:induction false} WriteNothing(m: Manager, w: Writer)
    requires WriterShape(w)
    ensures var r := WriteData(m, w, []); r == Written(m, r.w, [], [])
  {
  }

  lemma CloseInv(s: Store, k: nat)
    requires Inv(s) && Enabled(s, Close(k))
    ensures Inv(Do(s, Close(k)).s)
  {
    hide StreamOk, Fresh, NoDup, Reloadable, SnapshotOnDisk, Flush;
    var o := s.writers[k];
    var log := FlushLog(o.w);
    var o' := o.(w := Flush(o.w), closed := true);
    var s' := Do(s, Close(k)).s;
    CloseStreamOk(s.disk, o);
    OthersApart(s, k, {});
    OwnBlock(s, k);
    assert o.chain + [] == o.chain && Elems<nat>([]) == {};
    OwnedUpdate(s.writers, k, o', []);
    assert Owned(s'.writers) == Owned(s.writers) && Taken(s') == Taken(s);
    hide Elems, Owned, FlushLog, Taken;
    WritersFrame(s.disk, log, {o.w.id}, s.writers, k, o');
    WritesOnlyFrame(s.disk, log, {o.w.id}, Live(s.last));
    SnapshotFrame(s.disk.blocks, s'.disk.blocks, s.last);
  }

  /** A stream that is closed is on disk. */
  lemma {:induction false} CloseStreamOk(d: Disk, o: OpenStream)
    requires StreamOk(d.blocks, o) && !o.closed
    ensures StreamOk(Apply(d, FlushLog(o.w)).blocks, o.(w := Flush(o.w), closed := true))
    ensures WritesOnly(FlushLog(o.w), {o.w.id})
  {
    hide Stored, Holds;
    FlushStores(d, o.w, o.chain, o.bytes);
  }

  lemma ReadInv(s: Store, id: nat)
    requires Inv(s) && Enabled(s, ReadBlock(id))
    ensures Inv(Do(s, ReadBlock(id)).s)
  {
    hide StreamOk, SnapshotOnDisk, Reloadable, Owned, Live;
    var s' := Do(s, ReadBlock(id)).s;
    assert Elems(s'.m.usedBlocks) == Elems(s.m.usedBlocks) + {id};
    assert Taken(s') == Taken(s);
  }

  /** Committing splits the blocks of the epoch between the snapshot and the streams still open. */
  lemma CommitSplit(blocks: map<nat, seq<Byte>>, ws: map<nat, OpenStream>)
    requires WritersOk(blocks, ws)
    ensures StreamBlocks(ClosedStreams(ws)) <= Owned(ws) && Owned(StillOpen(ws)) <= Owned(ws)
    ensures StreamBlocks(ClosedStreams(ws)) !! Owned(StillOpen(ws))
  {
    hide StreamOk;
    var closed, open := ClosedStreams(ws), StillOpen(ws);
    forall x | x in StreamBlocks(closed)
      ensures x in Owned(ws) && x !in Owned(open)
    {
      var j :| j in closed && x in closed[j].chain;
      assert x in Elems(ws[j].chain);
      forall k | k in open
        ensures x !in open[k].chain
      {
        assert Elems(ws[j].chain) !! Elems(ws[k].chain);
        assert x !in Elems(ws[k].chain);
      }
    }
  }

  lemma NoDupBound(s: seq<nat>, n: nat)
    requires NoDup(s) && forall i :: 0 <= i < |s| ==> s[i] < n
    ensures |s| <= n
  {
    NoDupCount(s);
    BelowCount(Elems(s), n);
  }

  lemma {:induction false} BelowCount(xs: set<nat>, n: nat)
    requires forall x :: x in xs ==> x < n
    ensures |xs| <= n
    decreases n
  {
    if n == 0 {
      assert xs == {};
    } else {
      BelowCount(xs - {n - 1}, n - 1);
    }
  }

  /** The disk after a commit: the free list is saved in fresh blocks, and one header slot changes. */
  lemma CommitDisk(s: Store, meta: nat)
    requires Inv(s) && Enabled(s, CommitHeader(meta))
    ensures var c := WriteHeader(s.m, meta, true);
            var d' := Apply(s.disk, c.log);
            && SameOn(s.disk.blocks, d'.blocks, Taken(s))
            && (s.m.active == 1 ==> d'.h1 == c.header && d'.h2 == s.disk.h2)
            && (s.m.active == 0 ==> d'.h2 == c.header && d'.h1 == s.disk.h1)
            && (s.m.usedBlocks == [] ==> c.chain == [] && c.header.freeListId == INVALID_BLOCK)
            && (s.m.usedBlocks != [] ==>
                  Stored(d'.blocks, c.chain, FreeListBytes(s.m.usedBlocks)) && c.chain[0] == c.header.freeListId)
  {
    var c := WriteHeader(s.m, meta, true);
    var f := SaveFreeList(s.m);
    var hw := HeaderWrite(if s.m.active == 1 then 0 else 1, c.header);
    var d1 := Apply(s.disk, f.log);
    SaveFreeListFresh(s.m, Taken(s));
    ApplyConcat(s.disk, f.log, [hw]);
    ApplySingle(d1, hw);
    hide Stored, Elems, NoDup, Owned, Live, Reloadable, SnapshotOnDisk, WritersOk, Fresh, FreeListBytes;
    WritesOnlyFrame(s.disk, f.log, Elems(f.chain), Taken(s));
    if s.m.usedBlocks != [] {
      SaveFreeListStores(s.disk, s.m, Taken(s));
    }
  }

  lemma MetaLeads(s: Store, meta: nat)
    ensures if exists st :: CanLead(s, meta, st) then CanLead(s, meta, MetaOf(s, meta))
            else MetaOf(s, meta) == NoStream()
  {
    if st :| CanLead(s, meta, st) {
      assert Leads(s.writers, s.last.meta, s.last.streams, s.m.usedBlocks, meta, st);
    }
    if st :| Leads(s.writers, s.last.meta, s.last.streams, s.m.usedBlocks, meta, st) {
      assert CanLead(s, meta, st);
    }
  }

  /** The stream the header leads to is whole: it is still on disk and none of its blocks is freed. */
  lemma MetaBlocks(s: Store, meta: nat)
    requires Inv(s)
    ensures var st := MetaOf(s, meta);
            && (Elems(st.chain) <= StreamBlocks(ClosedStreams(s.writers)) || Elems(st.chain) <= Live(s.last))
            && Elems(st.chain) !! Elems(s.m.usedBlocks)
            && (st != NoStream() ==> Stored(s.disk.blocks, st.chain, st.bytes) && st.chain[0] == meta)
            && (st != NoStream() <==> exists st :: CanLead(s, meta, st))
  {
    hide Stored, Fresh, Reloadable, Slots;
    var st := MetaOf(s, meta);
    MetaLeads(s, meta);
    if exists st :: CanLead(s, meta, st) {
      if ClosedNow(s.writers, st) {
        var k :| k in s.writers && s.writers[k].closed && Stream(s.writers[k].chain, s.writers[k].bytes) == st;
        assert StreamOk(s.disk.blocks, s.writers[k]);
        assert ClosedStreams(s.writers)[k] == st;
        assert Elems(st.chain) <= StreamBlocks(ClosedStreams(s.writers));
      }
    }
  }

  /** The blocks in use after a commit: none is freed by it, all are below the new high-water mark. */
  lemma CommitSets(s: Store, meta: nat)
    requires Inv(s) && Enabled(s, CommitHeader(meta))
    ensures var s', f := Do(s, CommitHeader(meta)).s, SaveFreeList(s.m);
            && Taken(s') <= Taken(s) + Elems(f.chain)
            && Live(s'.last) !! Owned(s'.writers)
            && Elems(s.m.usedBlocks) !! Taken(s')
            && f.m.maxBlock <= MAX_BLOCKS
  {
    hide Fresh, SnapshotOnDisk, WritersOk, Reloadable, SaveFreeList, Slots, MetaOf, Elems, Owned, StreamBlocks, CanLead,
      Stored, NoDup, Apply;
    SaveFreeListFresh(s.m, Taken(s));
    CommitSplit(s.disk.blocks, s.writers);
    MetaBlocks(s, meta);
  }

  /** The blocks freed by a commit are apart from everything the new snapshot and the open streams hold. */
  lemma CommitFresh(s: Store, meta: nat)
    requires Inv(s) && Enabled(s, CommitHeader(meta))
    ensures var s' := Do(s, CommitHeader(meta)).s;
            && Fresh(s'.m, Taken(s'))
            && Reloadable(s'.last)
            && Live(s'.last) !! Owned(s'.writers)
  {
    hide Owned, StreamBlocks, SnapshotOnDisk, WritersOk, SaveFreeList, Slots, MetaOf, Elems, Stored, Apply;
    var s' := Do(s, CommitHeader(meta)).s;
    var f := SaveFreeList(s.m);
    CommitSets(s, meta);
    SaveFreeListFresh(s.m, Taken(s));
    assert NoDup(f.chain) by {
      SavedChainDistinct(s.disk, s.m, Taken(s));
    }
    hide Live;
    assert Live(s'.last) <= Taken(s');
    FreedAreFresh(s.m, f.m.maxBlock, Live(s.last), Taken(s), Taken(s'));
    NoDupBound(s.m.usedBlocks, s.m.maxBlock);
    hide NoDup;
  }

  lemma SavedChainDistinct(d: Disk, m: Manager, taken: set<nat>)
    requires Fresh(m, taken) && SaveFreeList(m).m.maxBlock <= MAX_BLOCKS
    ensures NoDup(SaveFreeList(m).chain)
  {
    if m.usedBlocks != [] {
      SaveFreeListStores(d, m, taken);
    }
  }

  /** Blocks that were needed before and are not needed any more can be handed out again. */
  lemma FreedAreFresh(m: Manager, maxBlock: nat, live: set<nat>, taken: set<nat>, taken': set<nat>)
    requires Fresh(m, taken) && live <= taken && m.maxBlock <= maxBlock
    requires NoDup(m.usedBlocks) && Elems(m.usedBlocks) <= live
    requires Elems(m.usedBlocks) !! taken' && forall x :: x in taken' ==> x < maxBlock
    ensures forall m': Manager :: m'.freeList == m.usedBlocks && m'.maxBlock == maxBlock ==> Fresh(m', taken')
    ensures forall i :: 0 <= i < |m.usedBlocks| ==> m.usedBlocks[i] < m.maxBlock
  {
    assert forall i :: 0 <= i < |m.usedBlocks| ==> m.usedBlocks[i] in Elems(m.usedBlocks);
  }

  lemma CommitStreams(s: Store, blocks': map<nat, seq<Byte>>)
    requires WritersOk(s.disk.blocks, s.writers) && SameOn(s.disk.blocks, blocks', Taken(s))
    ensures WritersOk(blocks', StillOpen(s.writers))
    ensures forall k :: k in ClosedStreams(s.writers) ==>
              Stored(blocks', s.writers[k].chain, s.writers[k].bytes)
  {
    var ws := s.writers;
    hide Stored, Holds, Live;
    forall k | k in ws
      ensures StreamOk(blocks', ws[k])
    {
      assert StreamOk(s.disk.blocks, ws[k]);
      assert Elems(ws[k].chain) <= Owned(ws);
      StreamFrame(s.disk.blocks, blocks', ws[k]);
    }
  }

  lemma CommitSlots(s: Store, meta: nat)
    requires Inv(s) && Enabled(s, CommitHeader(meta))
    ensures var s' := Do(s, CommitHeader(meta)).s; Slots(s'.disk, s'.m, s'.last.header)
  {
    hide Fresh, Reloadable, SaveFreeList, FreeListBytes, Stored, WritersOk, Live, Owned, SnapshotOnDisk, NoDup, Elems;
    CommitDisk(s, meta);
  }

  lemma CommitMeta(s: Store, meta: nat, blocks': map<nat, seq<Byte>>)
    requires Inv(s) && SameOn(s.disk.blocks, blocks', Taken(s))
    ensures var st := MetaOf(s, meta);
            st != NoStream() ==> Stored(blocks', st.chain, st.bytes) && st.chain[0] == meta
  {
    MetaBlocks(s, meta);
    CommitSplit(s.disk.blocks, s.writers);
    hide Stored, Inv, CanLead, MetaOf, Live, Owned, StreamBlocks;
    var st := MetaOf(s, meta);
    if st != NoStream() {
      StoredFrame(s.disk.blocks, blocks', st.chain, st.bytes);
    }
  }

  lemma CommitSnapshot(s: Store, meta: nat)
    requires Inv(s) && Enabled(s, CommitHeader(meta))
    ensures var s' := Do(s, CommitHeader(meta)).s;
            SnapshotOnDisk(s'.disk.blocks, s'.last) && WritersOk(s'.disk.blocks, s'.writers)
  {
    hide Fresh, Reloadable, SaveFreeList, FreeListBytes, Stored, WritersOk, Live, Owned, Slots, NoDup, Elems, MetaOf;
    CommitDisk(s, meta);
    CommitStreams(s, Do(s, CommitHeader(meta)).s.disk.blocks);
    CommitMeta(s, meta, Do(s, CommitHeader(meta)).s.disk.blocks);
  }

  lemma CommitInv(s: Store, meta: nat)
    requires Inv(s) && Enabled(s, CommitHeader(meta))
    ensures Inv(Do(s, CommitHeader(meta)).s)
  {
    hide Fresh, Reloadable, SaveFreeList, FreeListBytes, Stored, WritersOk, Live, Owned, Slots, SnapshotOnDisk;
    CommitSlots(s, meta);
    CommitSnapshot(s, meta);
    CommitFresh(s, meta);
    assert Elems<nat>([]) == {};
  }

  /** Every operation a well-behaved client may attempt keeps the invariant. */
  lemma StepInv(s: Store, op: Op)
    requires Inv(s) && Enabled(s, op)
    ensures Inv(Do(s, op).s)
  {
    hide Inv, Do;
    match op {
      case Open(k) => OpenInv(s, k);
      case Write(k, data) => WriteInv(s, k, data);
      case Close(k) => CloseInv(s, k);
      case ReadBlock(id) => ReadInv(s, id);
      case CommitHeader(meta) => CommitInv(s, meta);
    }
  }

  // ---------------------------------------------------------------- crash and reopen

  /**
    Reopening rebuilds exactly the manager of the last snapshot: slot, iteration, meta block, high-water mark, and
    the saved free list in order, with the blocks it was read from noted as used.
   */
  lemma ReopenRestores(d: Disk, m: Manager, c: Snapshot)
    requires Slots(d, m, c.header) && SnapshotOnDisk(d.blocks, c)
    requires AllU64(c.freeIds) && |c.freeIds| < U64_LIMIT
    ensures Reopen(d) == RestoredManager(c, m.active)
  {
    if c.freeIds != [] {
      assert c.header.freeListId != INVALID_BLOCK;
      hide Stored, Fresh, FreeListBytes, LoadFreeList;
      LoadFreeListCorrect(d, c.freeChain, c.freeIds);
    }
  }

  /** The machine stops during `op`, after `cut` of its disk writes, and the file is reopened. */
  ghost function CrashDuring(s: Store, op: Op, cut: nat): Store
    requires CanAttempt(s, op) && cut <= |Do(s, op).log|
  {
    CrashEffect(s, op, Do(s, op), cut)
  }

  ghost function CrashEffect(s: Store, op: Op, e: Effect, cut: nat): Store
    requires cut <= |e.log|
  {
    var d := Apply(s.disk, e.log[..cut]);
    Store(d, Reopen(d), map[], if op.CommitHeader? && cut == |e.log| then e.s.last else s.last)
  }

  /** The disk writes of an operation before its header write touch no block the last snapshot needs. */
  lemma LogApart(s: Store, op: Op, cut: nat) returns (ids: set<nat>)
    requires Inv(s) && Enabled(s, op) && cut <= |Do(s, op).log|
    requires op.CommitHeader? ==> cut < |Do(s, op).log|
    ensures ids !! Live(s.last) && WritesOnly(Do(s, op).log[..cut], ids)
  {
    hide SnapshotOnDisk, Reloadable, WritersOk, Slots, Fresh, Owned, Live, Elems, WriteData, SaveFreeList, NoDup;
    match op {
      case Write(k, data) =>
        var r := WriteData(s.m, s.writers[k].w, data);
        WriteDataFresh(s.m, s.writers[k].w, data, Taken(s));
        OthersApart(s, k, {});
        OwnBlock(s, k);
        ids := {s.writers[k].w.id} + Elems(r.ids);
      case Close(k) =>
        OthersApart(s, k, {});
        OwnBlock(s, k);
        ids := {s.writers[k].w.id};
      case CommitHeader(meta) =>
        var f := SaveFreeList(s.m);
        SaveFreeListFresh(s.m, Taken(s));
        assert Do(s, op).log[..cut] == f.log[..cut];
        ids := Elems(f.chain);
      case _ =>
        ids := {};
    }
  }

  lemma RestoredInv(d: Disk, m: Manager, c: Snapshot)
    requires Slots(d, m, c.header) && SnapshotOnDisk(d.blocks, c) && Reloadable(c)
    ensures Inv(Store(d, Reopen(d), map[], c)) && Reopen(d) == RestoredManager(c, m.active)
  {
    assert AllU64(c.freeIds) by {
      assert forall i :: 0 <= i < |c.freeIds| ==> c.freeIds[i] < c.header.blockCount;
    }
    ReopenRestores(d, m, c);
    hide SnapshotOnDisk, Reopen;
    assert Owned(map[]) == {};
    assert Live(c) + {} == Live(c);
  }

  /**
    A crash at any point of any operation, followed by a reopen, leaves exactly the last committed snapshot, or the
    one being committed if its header had reached the disk; nothing of it is lost and the store is sound again.
   */
  lemma CrashInv(s: Store, op: Op, cut: nat)
    requires Inv(s) && Enabled(s, op) && cut <= |Do(s, op).log|
    ensures var s' := CrashDuring(s, op, cut);
            && Inv(s')
            && s'.last == (if op.CommitHeader? && cut == |Do(s, op).log| then Do(s, op).s.last else s.last)
            && s'.m == RestoredManager(s'.last, s'.m.active)
  {
    var e := Do(s, op);
    var d := Apply(s.disk, e.log[..cut]);
    if op.CommitHeader? && cut == |e.log| {
      assert e.log[..cut] == e.log;
      StepInv(s, op);
      hide Slots, SnapshotOnDisk, Reloadable, Reopen;
      RestoredInv(e.s.disk, e.s.m, e.s.last);
    } else {
      var ids := LogApart(s, op, cut);
      WritesOnlyFrame(s.disk, e.log[..cut], ids, Live(s.last));
      hide Reloadable, Reopen, WritersOk, Fresh, NoDup, Live, Do;
      SnapshotFrame(s.disk.blocks, d.blocks, s.last);
      RestoredInv(d, s.m, s.last);
    }
  }

  // ---------------------------------------------------------------- every run

  datatype Event = Done(op: Op) | Crashed(op: Op, cut: nat)

  ghost predicate Possible(s: Store, e: Event)
  {
    Enabled(s, e.op) && (e.Crashed? ==> e.cut <= |Do(s, e.op).log|)
  }

  ghost function After(s: Store, e: Event): Store
    requires CanAttempt(s, e.op) && (e.Crashed? ==> e.cut <= |Do(s, e.op).log|)
  {
    match e
    case Done(op) => Do(s, op).s
    case Crashed(op, cut) => CrashDuring(s, op, cut)
  }

  ghost predicate IsRun(s: Store, es: seq<Event>)
    decreases |es|
  {
    es == [] || (Possible(s, es[0]) && IsRun(After(s, es[0]), es[1..]))
  }

  ghost function Final(s: Store, es: seq<Event>): Store
    requires IsRun(s, es)
    decreases |es|
  {
    if es == [] then s else Final(After(s, es[0]), es[1..])
  }

  lemma {:induction false} RunInv(s: Store, es: seq<Event>)
    requires Inv(s) && IsRun(s, es)
    ensures Inv(Final(s, es))
    decreases |es|
  {
    if es != [] {
      EventInv(s, es[0]);
      RunInv(After(s, es[0]), es[1..]);
    }
  }

  lemma {:induction false} RunSnoc(s: Store, es: seq<Event>, e: Event)
    requires IsRun(s, es) && Possible(Final(s, es), e)
    ensures IsRun(s, es + [e]) && Final(s, es + [e]) == After(Final(s, es), e)
    decreases |es|
  {
    hide After, Do, Inv;
    if es == [] {
      assert es + [e] == [e] && [e][1..] == [];
    } else {
      assert (es + [e])[1..] == es[1..] + [e];
      RunSnoc(After(s, es[0]), es[1..], e);
    }
  }

  // ---------------------------------------------------------------- what was read, in order

  /**
    What can be read off the events of a run: the blocks noted as used, in order, the blocks freed by the commit in
    force, how many blocks were taken since, the meta block of that commit, and how many commits there were.
   */
  datatype Epoch = Epoch(used: seq<nat>, freed: seq<nat>, taken: nat, meta: nat, commits: nat)

  function FirstEpoch(): Epoch
  {
    Epoch([], [], 0, 0xffff_ffff_ffff_ffff, 0)
  }

  function Committing(h: Epoch, meta: nat): Epoch
  {
    Epoch([], h.used, 0, meta, h.commits + 1)
  }

  /** The free list in hand: the allocator takes the freed blocks from the end. */
  function InHand(h: Epoch): seq<nat>
  {
    h.freed[..Max0(|h.freed| - h.taken)]
  }

  /** Reads are noted in order, a commit frees what was read, and a reopen notes the chain of the saved list. */
  ghost function Noted(s: Store, h: Epoch, e: Event): Epoch
    requires Possible(s, e)
  {
    match e
    case Done(ReadBlock(id)) => h.(used := h.used + [id])
    case Done(CommitHeader(meta)) => Committing(h, meta)
    case Done(op) => h.(taken := h.taken + |Do(s, op).ids|)
    case Crashed(op, cut) =>
      (if op.CommitHeader? && cut == |Do(s, op).log| then Committing(h, op.metaBlock) else h).
        (used := After(s, e).last.freeChain, taken := 0)
  }

  ghost function EpochOf(s: Store, h: Epoch, es: seq<Event>): Epoch
    requires IsRun(s, es)
    decreases |es|
  {
    if es == [] then h else EpochOf(After(s, es[0]), Noted(s, h, es[0]), es[1..])
  }

  ghost predicate EpochOk(s: Store, h: Epoch)
  {
    && s.m.usedBlocks == h.used && s.last.freeIds == h.freed && s.m.freeList == InHand(h)
    && s.m.metaBlock == h.meta && s.m.iteration == 1 + h.commits
    && s.last.header.metaBlock == h.meta && s.last.header.iteration == 1 + h.commits
  }

  lemma TakesFromEnd(m: Manager, ids: seq<nat>, m': Manager, freed: seq<nat>, taken: nat)
    requires AllocsOf(m, ids, m') && m.freeList == freed[..Max0(|freed| - taken)]
    ensures m'.freeList == freed[..Max0(|freed| - (taken + |ids|))] && m'.usedBlocks == m.usedBlocks
    ensures m'.metaBlock == m.metaBlock && m'.iteration == m.iteration
  {
    AllocNCounts(m, |ids|);
  }

  lemma DoneEpoch(s: Store, op: Op, h: Epoch)
    requires Inv(s) && Enabled(s, op) && EpochOk(s, h)
    ensures EpochOk(Do(s, op).s, Noted(s, h, Done(op)))
  {
    hide Inv, AllocsOf, WriteData, SaveFreeList, MetaFrom, Apply, Live, OpenWriter;
    match op {
      case Open(k) =>
        OpenAllocs(s.m);
        TakesFromEnd(s.m, OpenWriter(s.m).ids, OpenWriter(s.m).m, h.freed, h.taken);
      case Write(k, data) =>
        var r := WriteData(s.m, s.writers[k].w, data);
        WriteAllocs(s.m, s.writers[k].w, data);
        TakesFromEnd(s.m, r.ids, r.m, h.freed, h.taken);
      case _ =>
    }
  }

  lemma EventEpoch(s: Store, e: Event, h: Epoch)
    requires Inv(s) && Possible(s, e) && EpochOk(s, h)
    ensures EpochOk(After(s, e), Noted(s, h, e))
  {
    hide Inv, CrashDuring, InHand, Do;
    match e {
      case Done(op) =>
        DoneEpoch(s, op, h);
      case Crashed(op, cut) =>
        CrashInv(s, op, cut);
        AllInHand(Noted(s, h, e));
        CommitFreed(s, op);
    }
  }

  lemma AllInHand(h: Epoch)
    requires h.taken == 0
    ensures InHand(h) == h.freed
  {
  }

  lemma CommitFreed(s: Store, op: Op)
    requires CanAttempt(s, op)
    ensures op.CommitHeader? ==>
              var last := Do(s, op).s.last;
              && last.freeIds == s.m.usedBlocks
              && last.header.metaBlock == op.metaBlock && last.header.iteration == s.m.iteration + 1
  {
    hide SaveFreeList, MetaFrom, Apply;
  }

  lemma {:induction false} RunEpoch(s: Store, es: seq<Event>, h: Epoch)
    requires Inv(s) && IsRun(s, es) && EpochOk(s, h)
    ensures EpochOk(Final(s, es), EpochOf(s, h, es))
    decreases |es|
  {
    hide Inv, After, Noted, EpochOk, Do;
    if es != [] {
      EventEpoch(s, es[0], h);
      EventInv(s, es[0]);
      RunEpoch(After(s, es[0]), es[1..], Noted(s, h, es[0]));
    }
  }

  /**
    After any run the blocks noted as used are the chain that the last reopen went through, followed by the blocks read
    since, in order; and the free list is the blocks read between the last two commits, in order, less those taken from
    its end since. So a commit frees exactly the blocks read, and the one read last is handed out first. The iteration
    counts the commits, and the meta block is the one of the last of them.
   */
  lemma {:induction false} ReadsFreeInOrder(es: seq<Event>, meta: nat)
    requires IsRun(Create(), es) && Enabled(Final(Create(), es), CommitHeader(meta))
    ensures var s, h := Final(Create(), es), EpochOf(Create(), FirstEpoch(), es);
            var m := Do(s, CommitHeader(meta)).s.m;
            && s.m.usedBlocks == h.used && s.m.freeList == h.freed[..Max0(|h.freed| - h.taken)]
            && s.m.iteration == 1 + h.commits && s.m.metaBlock == h.meta
            && m.freeList == h.used && m.usedBlocks == []
            && (h.used != [] ==> Alloc(m).id == h.used[|h.used| - 1])
  {
    CreateInv();
    var s, h := Final(Create(), es), EpochOf(Create(), FirstEpoch(), es);
    hide Inv, IsRun, Final, EpochOf, Enabled, SaveFreeList, MetaFrom, Apply;
    RunEpoch(Create(), es, FirstEpoch());
  }

  /**
    Checkpoint atomicity: after any run of operations and crashes, a further crash at any point of any operation
    and a reopen yield exactly the manager of the last committed snapshot, or of the one being committed once its
    header is on disk. Before and after, the active slot carries that header and the other slot an older one.
   */
  lemma {:induction false} CheckpointAtomicity(es: seq<Event>, op: Op, cut: nat)
    requires IsRun(Create(), es) && Possible(Final(Create(), es), Crashed(op, cut))
    ensures var s := Final(Create(), es);
            var s' := CrashDuring(s, op, cut);
            && Slots(s.disk, s.m, s.last.header)
            && Slots(s'.disk, s'.m, s'.last.header)
            && s'.last == (if op.CommitHeader? && cut == |Do(s, op).log| then Do(s, op).s.last else s.last)
            && s'.m == RestoredManager(s'.last, s'.m.active)
            && SnapshotOnDisk(s'.disk.blocks, s'.last)
  {
    CreateInv();
    RunInv(Create(), es);
    var s := Final(Create(), es);
    CrashInv(s, op, cut);
    hide Slots, SnapshotOnDisk, Final, Create, CrashDuring, Do, IsRun;
  }

  /**
    Allocation safety: after any run, no block that an operation takes belongs to the last snapshot or to another
    stream, and the free list is duplicate-free and below the high-water mark. If every commit of the run was given
    a safe meta block, none of them can be reached on disk from the active header either.
   */
  lemma {:induction false} AllocationSafety(es: seq<Event>, op: Op)
    requires IsRun(Create(), es) && Enabled(Final(Create(), es), op)
    ensures var s := Final(Create(), es);
            && Elems(Do(s, op).ids) !! Live(s.last)
            && Elems(Do(s, op).ids) !! Owned(s.writers)
            && NoDup(s.m.freeList)
            && (forall x :: x in s.m.freeList ==> x < s.m.maxBlock && x !in Live(s.last))
            && (Careful(Create(), es) ==>
                  var reached := HeaderBlocks(s.disk, ActiveHeader(s.disk, s.m), |s.last.meta.bytes|);
                  Elems(Do(s, op).ids) !! reached && NeverHandsOut(s.m, reached))
  {
    CreateInv();
    RunInv(Create(), es);
    var s := Final(Create(), es);
    StepTakes(s, op);
    if Careful(Create(), es) {
      CarefulKnown(Create(), es);
      hide Inv, Do, HeaderBlocks, Live, Taken, Careful, Enabled;
      HeaderReach(s);
      LiveNeverHandedOut(s);
    }
  }

  /** What an operation takes was neither needed by the last snapshot nor owned by a stream. */
  lemma StepTakes(s: Store, op: Op)
    requires Inv(s) && Enabled(s, op)
    ensures Elems(Do(s, op).ids) !! Live(s.last) && Elems(Do(s, op).ids) !! Owned(s.writers)
    ensures NoDup(s.m.freeList)
    ensures forall x :: x in s.m.freeList ==> x < s.m.maxBlock && x !in Live(s.last)
  {
    hide Slots, SnapshotOnDisk, Reloadable, WritersOk, WriteData, SaveFreeList, Owned, Live, MetaOf;
    match op {
      case Open(k) => AllocFresh(s.m, Taken(s));
      case Write(k, data) => WriteDataFresh(s.m, s.writers[k].w, data, Taken(s));
      case CommitHeader(meta) => SaveFreeListFresh(s.m, Taken(s));
      case _ =>
    }
  }

  // ---------------------------------------------------------------- what the active header leads to

  function ActiveHeader(d: Disk, m: Manager): Header
  {
    if m.active == 0 then d.h1 else d.h2
  }

  /** The blocks loaded by reading `n` bytes from block `id` on, following the links on disk. */
  function Reached(d: Disk, id: nat, n: nat): seq<nat>
  {
    [id] + ReadData(d, Load(d, ZeroBuffer(), id), n).loads
  }

  /** The blocks reached from a header: by reading `n` bytes at its meta block, and by loading its free list. */
  ghost function HeaderBlocks(d: Disk, h: Header, n: nat): set<nat>
  {
    (if h.metaBlock == INVALID_BLOCK then {} else Elems(Reached(d, h.metaBlock, n)))
    + (if h.freeListId == INVALID_BLOCK then {} else Elems(LoadFreeList(d, h.freeListId).loads))
  }

  /** Following the links through a stored stream passes exactly the blocks of its chain. */
  lemma StoredReached(d: Disk, chain: seq<nat>, bytes: seq<Byte>)
    requires Stored(d.blocks, chain, bytes)
    ensures Reached(d, chain[0], |bytes|) == chain
  {
    if bytes != [] {
      LoadAt(d, ZeroBuffer(), chain, bytes, 0);
      hide Stored, ReaderAt, Load, ReadData;
      var r := Load(d, ZeroBuffer(), chain[0]);
      var k := ReadDataCorrect(d, r, |bytes|, chain, bytes, 0, 0);
      ReaderBounds(d, ReadData(d, r, |bytes|).r, 0, chain, bytes, k, |bytes|);
      SliceCons(chain, 0, |chain|);
      assert chain[0..|chain|] == chain;
    }
  }

  /** The stream that the header names is known. */
  ghost predicate MetaKnown(c: Snapshot)
  {
    c.header.metaBlock == INVALID_BLOCK || c.meta != NoStream()
  }

  /** Every commit of the run is given a safe meta block. */
  ghost predicate Careful(s: Store, es: seq<Event>)
    requires IsRun(s, es)
    decreases |es|
  {
    es == [] ||
    ((es[0].op.CommitHeader? ==> SafeMeta(s, es[0].op.metaBlock)) && Careful(After(s, es[0]), es[1..]))
  }

  lemma {:induction false} RunKnown(s: Store, es: seq<Event>)
    requires Inv(s) && MetaKnown(s.last) && IsRun(s, es) && Careful(s, es)
    ensures MetaKnown(Final(s, es).last)
    decreases |es|
  {
    if es != [] {
      EventKnown(s, es[0]);
      EventInv(s, es[0]);
      RunKnown(After(s, es[0]), es[1..]);
    }
  }

  lemma EventInv(s: Store, e: Event)
    requires Inv(s) && Possible(s, e)
    ensures Inv(After(s, e))
  {
    hide Inv, Enabled, CanAttempt, Do, CrashDuring;
    match e {
      case Done(op) => StepInv(s, op);
      case Crashed(op, cut) => CrashInv(s, op, cut);
    }
  }

  lemma EventKnown(s: Store, e: Event)
    requires Inv(s) && MetaKnown(s.last) && Possible(s, e)
    requires e.op.CommitHeader? ==> SafeMeta(s, e.op.metaBlock)
    ensures MetaKnown(After(s, e).last)
  {
    if e.op.CommitHeader? {
      MetaBlocks(s, e.op.metaBlock);
    }
    hide Inv, MetaOf, CanLead, Apply, Reopen, SaveFreeList, WriteData;
  }

  lemma {:induction false} CarefulKnown(s: Store, es: seq<Event>)
    requires s == Create() && IsRun(s, es) && Careful(s, es)
    ensures Inv(Final(s, es)) && MetaKnown(Final(s, es).last)
  {
    CreateInv();
    RunInv(s, es);
    RunKnown(s, es);
  }

  /** The blocks reached from the active header are those of its stream and of its free list. */
  lemma HeaderReach(s: Store)
    requires Inv(s) && MetaKnown(s.last)
    ensures HeaderBlocks(s.disk, ActiveHeader(s.disk, s.m), |s.last.meta.bytes|)
         == Elems(s.last.meta.chain) + Elems(s.last.freeChain)
    ensures Elems(s.last.meta.chain) + Elems(s.last.freeChain) <= Live(s.last)
  {
    var c := s.last;
    assert Live(c) == Elems(c.meta.chain) + StreamBlocks(c.streams) + Elems(c.freeChain);
    assert AllU64(c.freeIds) by {
      assert forall i :: 0 <= i < |c.freeIds| ==> c.freeIds[i] < c.header.blockCount;
    }
    hide Live, Stored, Fresh, WritersOk, NoDup, FreeListBytes, LoadFreeList, Reached, StreamBlocks, Elems;
    HeaderOnDisk(s.disk.blocks, c);
    if c.meta != NoStream() {
      StoredReached(s.disk, c.meta.chain, c.meta.bytes);
    } else {
      NoBlocks();
    }
    if c.freeIds != [] {
      LoadFreeListCorrect(s.disk, c.freeChain, c.freeIds);
    } else {
      NoBlocks();
    }
  }

  lemma NoBlocks()
    ensures Elems<nat>([]) == {}
  {
  }

  lemma HeaderOnDisk(blocks: map<nat, seq<Byte>>, c: Snapshot)
    requires SnapshotOnDisk(blocks, c)
    ensures c.meta != NoStream() ==> c.meta.chain != [] && c.meta.chain[0] < MAX_BLOCKS
    ensures c.freeIds != [] ==> c.freeChain != [] && c.freeChain[0] < MAX_BLOCKS
  {
  }

  lemma LiveNeverHandedOut(s: Store)
    requires Inv(s)
    ensures forall xs :: xs <= Live(s.last) ==> NeverHandsOut(s.m, xs)
  {
    forall xs: set<nat>, n: nat | xs <= Live(s.last)
      ensures Alloc(AllocN(s.m, n)).id !in xs
    {
      FreshNeverHandsOut(s.m, Taken(s), n);
    }
  }

  /**
    After the commit the new header names no meta block, or a stream that was closed by then or committed before,
    and no number of allocations hands out a block that is reached on disk by reading that stream from there.
   */
  ghost predicate LeadsSafely(s: Store, meta: nat, s': Store)
  {
    || meta == INVALID_BLOCK
    || exists st :: MayLead(s, meta, st) && NeverHandsOut(s'.m, Elems(Reached(s'.disk, meta, |st.bytes|)))
  }

  ghost predicate MayLead(s: Store, meta: nat, st: Stream)
  {
    (ClosedNow(s.writers, st) || Committed(s.last, st)) && st.chain != [] && st.chain[0] == meta
  }

  lemma MayLeadReached(s: Store, meta: nat, st: Stream)
    requires Inv(s) && Enabled(s, CommitHeader(meta)) && MayLead(s, meta, st)
    ensures Reached(Do(s, CommitHeader(meta)).s.disk, meta, |st.bytes|) == st.chain
  {
    var d' := Do(s, CommitHeader(meta)).s.disk;
    CommitDisk(s, meta);
    assert Stored(s.disk.blocks, st.chain, st.bytes) && Elems(st.chain) <= Taken(s) by {
      hide Stored, Fresh, Reloadable, Slots;
      if ClosedNow(s.writers, st) {
        var k :| k in s.writers && s.writers[k].closed && Stream(s.writers[k].chain, s.writers[k].bytes) == st;
        assert StreamOk(s.disk.blocks, s.writers[k]);
      }
    }
    hide Stored, Inv, Taken, Reached, SaveFreeList;
    StoredFrame(s.disk.blocks, d'.blocks, st.chain, st.bytes);
    StoredReached(d', st.chain, st.bytes);
  }

  /**
    Whatever meta block a commit is given, and however many bytes are read from there, the allocator leaves alone what
    is reached exactly when all of it lies below the high-water mark and none of it was read since the last commit.
   */
  lemma ReachSafeIff(s: Store, meta: nat, n: nat)
    requires CanAttempt(s, CommitHeader(meta))
    ensures var s' := Do(s, CommitHeader(meta)).s;
            var reached := Reached(s'.disk, meta, n);
            NeverHandsOut(s'.m, Elems(reached)) <==>
              forall x :: x in reached ==> x < s'.m.maxBlock && x !in s.m.usedBlocks
  {
    var s' := Do(s, CommitHeader(meta)).s;
    assert s'.m.freeList == s.m.usedBlocks;
    hide Do, Reached;
    HandsOutIff(s'.m, Reached(s'.disk, meta, n));
  }

  /**
    Among the streams closed by then and those of the last commit: a commit makes a header that leads to a stream safe
    from the allocator exactly when its meta block is safe.
   */
  lemma MetaSafeIff(s: Store, meta: nat)
    requires Inv(s) && Enabled(s, CommitHeader(meta))
    ensures LeadsSafely(s, meta, Do(s, CommitHeader(meta)).s) <==> SafeMeta(s, meta)
  {
    hide Inv, Do, Enabled, CanLead, MayLead, NeverHandsOut, Reached;
    if SafeMeta(s, meta) && meta != INVALID_BLOCK {
      SafeLeads(s, meta);
    }
    if LeadsSafely(s, meta, Do(s, CommitHeader(meta)).s) && meta != INVALID_BLOCK {
      var st :| MayLead(s, meta, st) &&
                NeverHandsOut(Do(s, CommitHeader(meta)).s.m,
                              Elems(Reached(Do(s, CommitHeader(meta)).s.disk, meta, |st.bytes|)));
      LeadsIsSafe(s, meta, st);
    }
  }

  /** What a commit does with the blocks read and with the stream it is given. */
  lemma CommitKeeps(s: Store, meta: nat)
    requires CanAttempt(s, CommitHeader(meta))
    ensures var s' := Do(s, CommitHeader(meta)).s;
            s'.m.freeList == s.m.usedBlocks && Elems(MetaOf(s, meta).chain) <= Live(s'.last)
  {
    hide SaveFreeList, MetaOf, Apply, StreamBlocks;
  }

  lemma LeadMay(s: Store, meta: nat, st: Stream)
    ensures CanLead(s, meta, st) ==> MayLead(s, meta, st)
    ensures MayLead(s, meta, st) && NoneShared(st.chain, s.m.usedBlocks) ==> CanLead(s, meta, st)
  {
  }

  lemma SafeLeads(s: Store, meta: nat)
    requires Inv(s) && Enabled(s, CommitHeader(meta)) && SafeMeta(s, meta) && meta != INVALID_BLOCK
    ensures LeadsSafely(s, meta, Do(s, CommitHeader(meta)).s)
  {
    hide Inv, Do, Live, MetaOf, CanLead, MayLead, NeverHandsOut, Reached, Elems;
    var s', st := Do(s, CommitHeader(meta)).s, MetaOf(s, meta);
    MetaLeads(s, meta);
    LeadMay(s, meta, st);
    CommitInv(s, meta);
    CommitKeeps(s, meta);
    LiveNeverHandedOut(s');
    MayLeadReached(s, meta, st);
  }

  lemma LeadsIsSafe(s: Store, meta: nat, st: Stream)
    requires Inv(s) && Enabled(s, CommitHeader(meta)) && MayLead(s, meta, st)
    requires var s' := Do(s, CommitHeader(meta)).s;
             NeverHandsOut(s'.m, Elems(Reached(s'.disk, meta, |st.bytes|)))
    ensures CanLead(s, meta, st)
  {
    hide Inv, Do, CanLead, MayLead, NeverHandsOut, Reached;
    var s' := Do(s, CommitHeader(meta)).s;
    MayLeadReached(s, meta, st);
    CommitKeeps(s, meta);
    HandsOutIff(s'.m, st.chain);
    LeadMay(s, meta, st);
  }

  /** Reading the stream that the active header leads to gives its bytes. */
  lemma {:induction false} MetaReads(s: Store, sizes: seq<nat>, was: seq<Byte>)
    requires Inv(s) && |was| == FB_SIZE
    requires s.last.meta.bytes != [] && Sum(sizes) == |s.last.meta.bytes|
    ensures s.last.meta.chain != [] && s.last.meta.chain[0] == s.m.metaBlock
    ensures ReadsBack(s.disk, s.last.meta.chain, s.last.meta.bytes, sizes, was)
  {
    hide Stored, Reloadable, Fresh, WritersOk, Live, Owned;
    assert Stored(s.disk.blocks, s.last.meta.chain, s.last.meta.bytes);
    StreamRoundTrip(s.disk, s.last.meta.chain, s.last.meta.bytes, sizes, was);
    HeaderOnDisk(s.disk.blocks, s.last);
  }

  /**
    After any run and a crash at any point of any operation, reading from the meta block of the reopened file gives
    the stream committed with it, under any chunking. If every commit was given a safe meta block, there is such a
    stream unless the header names none.
   */
  lemma {:induction false} MetaReadsBack(es: seq<Event>, op: Op, cut: nat, sizes: seq<nat>, was: seq<Byte>)
    requires IsRun(Create(), es) && Possible(Final(Create(), es), Crashed(op, cut)) && |was| == FB_SIZE
    ensures var s' := CrashDuring(Final(Create(), es), op, cut);
            var m := Reopen(s'.disk);
            && (s'.last.meta.bytes != [] && Sum(sizes) == |s'.last.meta.bytes| ==>
                  ReadChunks(s'.disk, Load(s'.disk, was, m.metaBlock), sizes).bytes == s'.last.meta.bytes)
            && (Careful(Create(), es) && (op.CommitHeader? ==> SafeMeta(Final(Create(), es), op.metaBlock)) ==>
                  m.metaBlock == INVALID_BLOCK || s'.last.meta != NoStream())
  {
    CreateInv();
    RunInv(Create(), es);
    var s := Final(Create(), es);
    var s' := CrashDuring(s, op, cut);
    CrashInv(s, op, cut);
    assert s'.m == Reopen(s'.disk) && s' == After(s, Crashed(op, cut));
    if Careful(Create(), es) && (op.CommitHeader? ==> SafeMeta(s, op.metaBlock)) {
      CarefulKnown(Create(), es);
      EventKnown(s, Crashed(op, cut));
    }
    hide SnapshotOnDisk, Reopen, CrashDuring, Do, IsRun, ReadChunks, Load, Careful, Reloadable, WritersOk;
    if s'.last.meta.bytes != [] && Sum(sizes) == |s'.last.meta.bytes| {
      MetaReads(s', sizes, was);
    }
  }

  // ---------------------------------------------------------------- reading back

  /** Stream `k`, if it is closed or of the last snapshot, reads back the bytes given to its writer. */
  ghost predicate StreamReads(s: Store, k: nat, sizes: seq<nat>, was: seq<Byte>)
    requires |was| == FB_SIZE
  {
    && (k in s.writers && s.writers[k].closed && s.writers[k].bytes != [] && Sum(sizes) == |s.writers[k].bytes| ==>
          ReadsBack(s.disk, s.writers[k].chain, s.writers[k].bytes, sizes, was))
    && (k in s.last.streams && s.last.streams[k].bytes != [] && Sum(sizes) == |s.last.streams[k].bytes| ==>
          ReadsBack(s.disk, s.last.streams[k].chain, s.last.streams[k].bytes, sizes, was))
  }

  lemma {:induction false} OnDiskReads(s: Store, k: nat, sizes: seq<nat>, was: seq<Byte>)
    requires WritersOk(s.disk.blocks, s.writers) && SnapshotOnDisk(s.disk.blocks, s.last) && |was| == FB_SIZE
    ensures StreamReads(s, k, sizes, was)
  {
    hide Stored;
    if k in s.writers && s.writers[k].closed && s.writers[k].bytes != [] && Sum(sizes) == |s.writers[k].bytes| {
      assert StreamOk(s.disk.blocks, s.writers[k]);
      StreamRoundTrip(s.disk, s.writers[k].chain, s.writers[k].bytes, sizes, was);
    }
    if k in s.last.streams && s.last.streams[k].bytes != [] && Sum(sizes) == |s.last.streams[k].bytes| {
      StreamRoundTrip(s.disk, s.last.streams[k].chain, s.last.streams[k].bytes, sizes, was);
    }
  }

  /**
    Non-interference: after any run, whatever was written and committed around it, a closed stream reads back
    exactly the bytes given to its writer under any chunking, and so does every stream of the last snapshot.
   */
  lemma {:induction false} StreamsReadBack(es: seq<Event>, k: nat, sizes: seq<nat>, was: seq<Byte>)
    requires IsRun(Create(), es) && |was| == FB_SIZE
    ensures StreamReads(Final(Create(), es), k, sizes, was)
  {
    hide Final, Create, IsRun, WritersOk, SnapshotOnDisk, StreamReads, Slots, Reloadable;
    CreateInv();
    RunInv(Create(), es);
    OnDiskReads(Final(Create(), es), k, sizes, was);
  }

  ghost predicate ReadsBack(d: Disk, chain: seq<nat>, bytes: seq<Byte>, sizes: seq<nat>, was: seq<Byte>)
    requires |was| == FB_SIZE
  {
    && chain != []
    && var res := ReadChunks(d, Load(d, was, chain[0]), sizes);
    && res.bytes == bytes
    && [chain[0]] + res.loads == chain
  }

  /**
    Free-list persistence: after any run, closing the file after a commit and reopening it gives the manager that
    was in memory, with the blocks of the saved free list noted as used.
   */
  lemma {:induction false} FreeListPersistence(es: seq<Event>, meta: nat)
    requires IsRun(Create(), es) && Enabled(Final(Create(), es), CommitHeader(meta))
    ensures var s := Final(Create(), es);
            var s' := Do(s, CommitHeader(meta)).s;
            Reopen(s'.disk) == s'.m.(usedBlocks := s'.last.freeChain)
  {
    hide Final, IsRun, Create, Inv, Enabled;
    CreateInv();
    RunInv(Create(), es);
    CommitPersists(Final(Create(), es), meta);
  }

  lemma CommitPersists(s: Store, meta: nat)
    requires Inv(s) && Enabled(s, CommitHeader(meta))
    ensures var s' := Do(s, CommitHeader(meta)).s; Reopen(s'.disk) == s'.m.(usedBlocks := s'.last.freeChain)
  {
    hide Reopen, SnapshotOnDisk, Reloadable, Enabled, SaveFreeList, MetaFrom, WritersOk, Fresh, Live, Owned, Apply;
    CommitInv(s, meta);
    var s' := Do(s, CommitHeader(meta)).s;
    RestoredInv(s'.disk, s'.m, s'.last);
  }
}

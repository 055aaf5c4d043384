/**
  Runs of the checkpoint store with the code as it is. An operation returns, or the machine stops while it runs, or the
  writer's loop never ends and the machine is stopped inside it; after a stop the file is reopened.
 */
module AsWrittenRuns {
  import opened Bytes
  import opened Collections
  import opened MetaStream
  import opened FreeList
  import opened Allocations
  import opened Checkpoint
  import opened AsWrittenStore
  import Space

  // ---------------------------------------------------------------- runs

  datatype RawEvent = Returned(op: Op) | Stopped(op: Op, cut: nat) | Hung(op: Op, turns: nat)

  /** The disk writes of a list of writes up to the one that never returns, and of that one's first turns. */
  ghost function EndlessLog(m: Manager, w: Writer, chunks: seq<seq<Byte>>, turns: nat): seq<DiskWrite>
    requires WriterShape(w)
    decreases |chunks|
  {
    if chunks == [] then []
    else
      var r := AsWritten(m, w, chunks[0]);
      if r.None? then LoopTurns(LoopStart(m, w, chunks[0]), turns).log
      else r.value.log + EndlessLog(r.value.m, r.value.w, chunks[1..], turns)
  }

  ghost function HungLog(s: Store, op: Op, turns: nat): seq<DiskWrite>
    requires CanAttempt(s, op)
  {
    match op
    case Write(k, data) => EndlessLog(s.m, s.writers[k].w, [data], turns)
    case CommitHeader(_) =>
      var o := OpenWriter(s.m);
      EndlessLog(o.m, o.w, FreeListChunks(s.m.usedBlocks), turns)
    case _ => []
  }

  /** What may happen next; the client keeps its contract, and the file stays within 64-bit offsets. */
  ghost predicate RawPossible(s: Store, e: RawEvent)
  {
    && CanAttempt(s, e.op)
    && var r := DoAsWritten(s, e.op);
       if e.Hung? then r.None?
       else
         && r.Some? && Enabled(s, e.op) && (forall x :: x in r.value.ids ==> x < MAX_BLOCKS)
         && (e.Stopped? ==> e.cut <= |r.value.log|)
  }

  ghost function RawAfter(s: Store, e: RawEvent): Store
    requires RawPossible(s, e)
  {
    match e
    case Returned(op) => DoAsWritten(s, op).value.s
    case Stopped(op, cut) => CrashEffect(s, op, DoAsWritten(s, op).value, cut)
    case Hung(op, turns) =>
      var d := Apply(s.disk, HungLog(s, op, turns));
      Store(d, Reopen(d), map[], s.last)
  }

  ghost predicate RawRun(s: Store, es: seq<RawEvent>)
    decreases |es|
  {
    es == [] || (RawPossible(s, es[0]) && RawRun(RawAfter(s, es[0]), es[1..]))
  }

  ghost function RawFinal(s: Store, es: seq<RawEvent>): Store
    requires RawRun(s, es)
    decreases |es|
  {
    if es == [] then s else RawFinal(RawAfter(s, es[0]), es[1..])
  }

  /** The event puts a new header on disk. */
  ghost predicate Commits(s: Store, e: RawEvent)
    requires RawPossible(s, e)
  {
    && e.op.CommitHeader? && !e.Hung?
    && (e.Stopped? ==> e.cut == |DoAsWritten(s, e.op).value.log|)
  }

  /**
    Whether the header in force counts all its blocks, after an event, given whether the one before did. What a client
    can check at a commit: nothing was read since the last one, or the free list is not empty.
   */
  ghost predicate CountsAfter(s: Store, counts: bool, e: RawEvent)
    requires RawPossible(s, e)
  {
    if Commits(s, e) then s.m.usedBlocks == [] || s.m.freeList != [] else counts
  }

  ghost predicate CountsAtEnd(s: Store, counts: bool, es: seq<RawEvent>)
    requires RawRun(s, es)
    decreases |es|
  {
    if es == [] then counts else CountsAtEnd(RawAfter(s, es[0]), CountsAfter(s, counts, es[0]), es[1..])
  }

  /** Every reopen of the run goes back to a header that counts all its blocks. */
  ghost predicate SafeReopens(s: Store, counts: bool, es: seq<RawEvent>)
    requires RawRun(s, es)
    decreases |es|
  {
    es == [] ||
    ((es[0].Returned? || CountsAfter(s, counts, es[0])) &&
     SafeReopens(RawAfter(s, es[0]), CountsAfter(s, counts, es[0]), es[1..]))
  }

  // ---------------------------------------------------------------- agreement with the intended store

  /** `g` is `h` up to the block count. */
  predicate Recounted(g: Header, h: Header)
  {
    g == h.(blockCount := g.blockCount)
  }

  /** The same memory, writers, blocks and snapshot, and the same headers up to their block counts. */
  ghost predicate SameStates(a: Store, b: Store)
  {
    a.m == b.m && a.writers == b.writers && SameDisks(a, b)
  }

  ghost predicate SameDisks(a: Store, b: Store)
  {
    && a.disk.blocks == b.disk.blocks
    && Recounted(a.disk.h1, b.disk.h1) && Recounted(a.disk.h2, b.disk.h2)
    && a.last == b.last.(header := a.last.header) && Recounted(a.last.header, b.last.header)
  }

  /** The block count of `a`'s header is right, or short of a block of its own free list. */
  ghost predicate CountOk(a: Snapshot, b: Snapshot, counts: bool)
  {
    if counts then a.header.blockCount == b.header.blockCount
    else a.header.blockCount < b.header.blockCount && a.header.blockCount in a.freeChain
  }

  ghost predicate Agrees(a: Store, b: Store, counts: bool)
  {
    SameStates(a, b) && Slots(a.disk, a.m, a.last.header) && CountOk(a.last, b.last, counts)
  }

  lemma {:induction false} SameWrites(d: Disk, e: Disk, log: seq<DiskWrite>)
    requires d.blocks == e.blocks && forall i :: 0 <= i < |log| ==> log[i].BlockWrite?
    ensures Apply(d, log).blocks == Apply(e, log).blocks
    ensures Apply(d, log).h1 == d.h1 && Apply(d, log).h2 == d.h2
    decreases |log|
  {
    if log != [] {
      SameWrites(ApplyOne(d, log[0]), ApplyOne(e, log[0]), log[1..]);
    }
  }

  lemma SavedWrites(m: Manager)
    ensures forall i :: 0 <= i < |SaveFreeList(m).log| ==> SaveFreeList(m).log[i].BlockWrite?
  {
    if m.usedBlocks != [] {
      var o := OpenWriter(m);
      WriteChunksWrites(o.m, o.w, FreeListChunks(m.usedBlocks));
    }
  }

  /** A step other than a commit does the same in both. */
  lemma QuietAgrees(a: Store, b: Store, counts: bool, op: Op)
    requires Agrees(a, b, counts) && RawPossible(a, Returned(op)) && !op.CommitHeader?
    ensures Enabled(b, op)
    ensures DoAsWritten(a, op).value.log == Do(b, op).log && DoAsWritten(a, op).value.ids == Do(b, op).ids
    ensures forall i :: 0 <= i < |Do(b, op).log| ==> Do(b, op).log[i].BlockWrite?
    ensures Agrees(DoAsWritten(a, op).value.s, Do(b, op).s, counts)
  {
    hide Apply, WriteData, AsWritten, StreamBlocks, Owned;
    if op.Write? {
      AsWrittenIff(a.m, a.writers[op.k].w, op.data);
      FitsLog(a.m, a.writers[op.k].w, op.data);
    }
    assert Live(a.last) == Live(b.last);
    SameWrites(a.disk, b.disk, Do(b, op).log);
    SameWrites(b.disk, b.disk, Do(b, op).log);
  }

  lemma {:induction false} FitsLog(m: Manager, w: Writer, data: seq<Byte>)
    requires WriterShape(w)
    ensures w.offset + |data| <= FB_SIZE ==> WriteData(m, w, data) == Written(m, PutInBlock(w, data), [], [])
  {
  }

  lemma CommitEffects(a: Store, b: Store, meta: nat)
    requires a.m == b.m && RawPossible(a, Returned(CommitHeader(meta)))
    ensures |a.m.usedBlocks| <= 1021
    ensures DoAsWritten(a, CommitHeader(meta)).value == CommitEffect(a, meta, WriteHeader(a.m, meta, false))
    ensures Do(b, CommitHeader(meta)) == CommitEffect(b, meta, WriteHeader(a.m, meta, true))
    ensures Enabled(b, CommitHeader(meta))
  {
    hide SaveFreeList, SaveFreeListAsWritten, Apply, MetaOf;
    AsWrittenSavesIff(a.m);
  }

  /** The disk after a commit: the blocks of the saved list, and one header. */
  lemma {:induction false} CommitWrites(d: Disk, m: Manager, meta: nat, late: bool)
    ensures var c, s := WriteHeader(m, meta, late), SaveFreeList(m);
            var d' := Apply(d, c.log);
            && c.log == s.log + [c.log[|s.log|]]
            && d'.blocks == Apply(d, s.log).blocks
            && (m.active == 1 ==> d'.h1 == c.header && d'.h2 == d.h2)
            && (m.active != 1 ==> d'.h2 == c.header && d'.h1 == d.h1)
  {
    hide SaveFreeList, Apply;
    var c, s := WriteHeader(m, meta, late), SaveFreeList(m);
    HeaderApplied(d, s.log, if m.active == 1 then 0 else 1, c.header);
    SavedWrites(m);
    SameWrites(d, d, s.log);
  }

  /** A commit does the same in both, but for the block count. */
  lemma CommitAgrees(a: Store, b: Store, counts: bool, meta: nat)
    requires Inv(b) && Agrees(a, b, counts) && RawPossible(a, Returned(CommitHeader(meta)))
    ensures Enabled(b, CommitHeader(meta))
    ensures var e, f := DoAsWritten(a, CommitHeader(meta)).value, Do(b, CommitHeader(meta));
            && e.ids == f.ids && |e.log| == |f.log| > 0
            && e.log[..|e.log| - 1] == f.log[..|f.log| - 1] == SaveFreeList(b.m).log
            && Agrees(e.s, f.s, b.m.usedBlocks == [] || b.m.freeList != [])
  {
    hide Inv, Enabled, SaveFreeList, Live, Owned, ClosedStreams, StillOpen, MetaFrom, Apply, Do, DoAsWritten,
      RawPossible;
    CommitEffects(a, b, meta);
    CommitCounts(b, meta);
    CommitWrites(a.disk, a.m, meta, false);
    CommitWrites(b.disk, b.m, meta, true);
    SavedWrites(a.m);
    SameWrites(a.disk, b.disk, SaveFreeList(a.m).log);
  }

  lemma {:induction false} HeaderApplied(d: Disk, log: seq<DiskWrite>, slot: nat, h: Header)
    ensures Apply(d, log + [HeaderWrite(slot, h)]) == ApplyOne(Apply(d, log), HeaderWrite(slot, h))
  {
    ApplyConcat(d, log, [HeaderWrite(slot, h)]);
    ApplySingle(Apply(d, log), HeaderWrite(slot, h));
  }

  /** The early count of a commit is right, or short of the one block that the free list went to. */
  lemma CommitCounts(b: Store, meta: nat)
    requires Inv(b) && Enabled(b, CommitHeader(meta)) && |b.m.usedBlocks| <= 1021
    ensures var s := SaveFreeList(b.m);
            if b.m.usedBlocks == [] || b.m.freeList != [] then s.m.maxBlock == b.m.maxBlock
            else s.m.maxBlock == b.m.maxBlock + 1 && s.chain == [b.m.maxBlock]
  {
    var s := SaveFreeList(b.m);
    hide Slots, SnapshotOnDisk, Reloadable, WritersOk, Stored, Fresh, SaveFreeList, Live, Owned, MetaOf;
    SaveFreeListAllocs(b.disk, b.m, Taken(b));
    AllocNCounts(b.m, |s.chain|);
    OneBlockSuffices(|b.m.usedBlocks|);
    if |s.chain| == 1 {
      assert s.chain[0] == Alloc(AllocN(b.m, 0)).id;
    }
  }

  /** An operation as written that returns is, up to the block count of its header, the intended one. */
  lemma StepAgrees(a: Store, b: Store, counts: bool, op: Op)
    requires Inv(b) && Agrees(a, b, counts) && RawPossible(a, Returned(op))
    ensures Enabled(b, op) && DoAsWritten(a, op).value.ids == Do(b, op).ids
    ensures Agrees(RawAfter(a, Returned(op)), Do(b, op).s, CountsAfter(a, counts, Returned(op)))
  {
    hide Inv, Agrees, Enabled, Do, DoAsWritten;
    AgreesMemory(a, b, counts);
    match op {
      case CommitHeader(meta) => CommitAgrees(a, b, counts, meta);
      case _ => QuietAgrees(a, b, counts, op);
    }
  }

  lemma AgreesMemory(a: Store, b: Store, counts: bool)
    requires Agrees(a, b, counts)
    ensures a.m == b.m && a.writers == b.writers && Live(a.last) == Live(b.last) && Taken(a) == Taken(b)
  {
  }

  // ---------------------------------------------------------------- stopped inside the endless loop

  /** `log` writes blocks only, and none of `live`. */
  ghost predicate Avoids(log: seq<DiskWrite>, live: set<nat>)
  {
    forall i :: 0 <= i < |log| ==> log[i].BlockWrite? && log[i].id !in live
  }

  lemma {:induction false} AvoidsFrame(d: Disk, log: seq<DiskWrite>, live: set<nat>)
    requires Avoids(log, live)
    ensures var d' := Apply(d, log); d'.h1 == d.h1 && d'.h2 == d.h2 && SameOn(d.blocks, d'.blocks, live)
  {
    var ids := set e | e in log && e.BlockWrite? :: e.id;
    WritesOnlyFrame(d, log, ids, live);
  }

  /** However often the loop as written turns, it writes only its own block and blocks that were not taken. */
  lemma {:induction false} LoopTurnsAvoid(s: LoopState, n: nat, taken: set<nat>, live: set<nat>)
    requires LoopShape(s) && Fresh(s.m, taken) && live <= taken && s.w.id !in live && Avoids(s.log, live)
    ensures Avoids(LoopTurns(s, n).log, live)
    decreases n
  {
    if n > 0 && LoopGuard(s) {
      AllocFresh(s.m, taken);
      LoopTurnsAvoid(LoopTurn(s), n - 1, taken + {Alloc(s.m).id}, live);
    }
  }

  lemma {:induction false} EndlessAvoids(m: Manager, w: Writer, chunks: seq<seq<Byte>>, turns: nat, taken: set<nat>,
                                         live: set<nat>)
    requires WriterShape(w) && Fresh(m, taken) && live <= taken && w.id !in live
    ensures Avoids(EndlessLog(m, w, chunks, turns), live)
    decreases |chunks|
  {
    hide AsWritten, Fresh, WriteData;
    if chunks != [] {
      AsWrittenIff(m, w, chunks[0]);
      FitsLog(m, w, chunks[0]);
      if AsWritten(m, w, chunks[0]).Some? {
        EndlessAvoids(m, PutInBlock(w, chunks[0]), chunks[1..], turns, taken, live);
      } else {
        LoopTurnsAvoid(LoopStart(m, w, chunks[0]), turns, taken, live);
      }
    }
  }

  lemma HungAvoids(b: Store, op: Op, turns: nat)
    requires Inv(b) && CanAttempt(b, op)
    ensures Avoids(HungLog(b, op, turns), Live(b.last))
  {
    hide SnapshotOnDisk, Reloadable, WritersOk, Slots, Fresh, Owned, Live, EndlessLog, NoDup;
    match op {
      case Write(k, data) =>
        OthersApart(b, k, {});
        OwnBlock(b, k);
        EndlessAvoids(b.m, b.writers[k].w, [data], turns, Taken(b), Live(b.last));
      case CommitHeader(_) =>
        var o := OpenWriter(b.m);
        AllocFresh(b.m, Taken(b));
        EndlessAvoids(o.m, o.w, FreeListChunks(b.m.usedBlocks), turns, Taken(b) + {o.w.id}, Live(b.last));
      case _ =>
    }
  }

  // ---------------------------------------------------------------- reopening

  /** A store right after a reopen: the snapshot is complete, and the manager is the one its header describes. */
  ghost predicate Restored(s: Store)
  {
    && Slots(s.disk, s.m, s.last.header) && SnapshotOnDisk(s.disk.blocks, s.last)
    && s.m == RestoredManager(s.last, s.m.active) && s.writers == map[]
  }

  lemma MarkIsHandedOut(m: Manager, xs: set<nat>)
    requires m.maxBlock in xs
    ensures !NeverHandsOut(m, xs)
  {
    AllocNCounts(m, |m.freeList|);
    assert Alloc(AllocN(m, |m.freeList|)).id == m.maxBlock;
  }

  /** Agreement survives a reopen, and the allocator stays off the snapshot, exactly if its header counts its blocks. */
  lemma ReopenedAgrees(a: Store, m0: Manager, b: Store, counts: bool)
    requires a.writers == b.writers == map[] && a.m == Reopen(a.disk) && b.m == Reopen(b.disk)
    requires SameDisks(a, b) && Slots(a.disk, m0, a.last.header) && CountOk(a.last, b.last, counts) && Inv(b)
    ensures Restored(a)
    ensures SameStates(a, b) <==> counts
    ensures counts ==> Agrees(a, b, true)
    ensures NeverHandsOut(a.m, Live(a.last)) <==> counts
  {
    assert AllU64(b.last.freeIds) by {
      assert forall i :: 0 <= i < |b.last.freeIds| ==> b.last.freeIds[i] < b.last.header.blockCount;
    }
    assert SnapshotOnDisk(a.disk.blocks, a.last) by {
      hide Stored, WritersOk, Fresh;
    }
    hide SnapshotOnDisk, WritersOk, Fresh, Reopen, Live, Owned, NoDup, Elems, NeverHandsOut;
    ReopenRestores(a.disk, m0, a.last);
    ReopenRestores(b.disk, b.m, b.last);
    assert a.m == RestoredManager(a.last, m0.active) && b.m == RestoredManager(b.last, b.m.active);
    SameLive(a.last, b.last);
    if counts {
      LiveNeverHandedOut(b);
    } else {
      ChainIsLive(a.last);
      assert a.last.header.blockCount in Elems(a.last.freeChain) by {
        InElems(a.last.freeChain, a.last.header.blockCount);
      }
      MarkIsHandedOut(a.m, Live(a.last));
    }
  }

  lemma SameLive(a: Snapshot, b: Snapshot)
    requires a == b.(header := a.header)
    ensures Live(a) == Live(b)
  {
  }

  lemma InElems(s: seq<nat>, x: nat)
    requires x in s
    ensures x in Elems(s)
  {
  }

  /** The intended store after the reopen that follows event `e`. */
  ghost function IdealReopened(a: Store, b: Store, e: RawEvent): Store
    requires RawPossible(a, e) && !e.Returned?
    requires e.Stopped? ==> CanAttempt(b, e.op) && e.cut <= |Do(b, e.op).log|
  {
    if e.Stopped? then CrashDuring(b, e.op, e.cut)
    else
      var d := b.disk.(blocks := RawAfter(a, e).disk.blocks);
      Store(d, Reopen(d), map[], b.last)
  }

  /** The writes before a header write, and those of any other operation, are the same in both. */
  lemma SamePrefix(a: Store, b: Store, counts: bool, e: RawEvent)
    requires Inv(b) && Agrees(a, b, counts) && RawPossible(a, e) && e.Stopped?
    ensures Possible(b, Crashed(e.op, e.cut))
    ensures |DoAsWritten(a, e.op).value.log| == |Do(b, e.op).log|
    ensures var f, g := DoAsWritten(a, e.op).value.log[..e.cut], Do(b, e.op).log[..e.cut];
            !Commits(a, e) ==> f == g && forall i :: 0 <= i < e.cut ==> g[i].BlockWrite?
  {
    hide Inv, Agrees, Do, DoAsWritten, SaveFreeList;
    if e.op.CommitHeader? {
      CommitAgrees(a, b, counts, e.op.metaBlock);
      SavedWrites(b.m);
      if !Commits(a, e) {
        var s := SaveFreeList(b.m).log;
        assert DoAsWritten(a, e.op).value.log[..e.cut] == s[..e.cut] && Do(b, e.op).log[..e.cut] == s[..e.cut];
      }
    } else {
      QuietAgrees(a, b, counts, e.op);
    }
  }

  lemma StopAgrees(a: Store, b: Store, counts: bool, e: RawEvent)
    requires Inv(b) && Agrees(a, b, counts) && RawPossible(a, e) && e.Stopped?
    ensures Possible(b, Crashed(e.op, e.cut))
    ensures var a', b' := RawAfter(a, e), CrashDuring(b, e.op, e.cut);
            && Inv(b') && SameDisks(a', b') && CountOk(a'.last, b'.last, CountsAfter(a, counts, e))
            && Slots(a'.disk, if Commits(a, e) then DoAsWritten(a, e.op).value.s.m else a.m, a'.last.header)
            && a'.m == Reopen(a'.disk) && b'.m == Reopen(b'.disk) && a'.writers == b'.writers == map[]
            && a'.last == (if Commits(a, e) then DoAsWritten(a, e.op).value.s.last else a.last)
  {
    hide Inv, Do, DoAsWritten, Reopen, Apply, SaveFreeList, Live, Slots;
    SamePrefix(a, b, counts, e);
    CrashInv(b, e.op, e.cut);
    var f, g := DoAsWritten(a, e.op).value, Do(b, e.op);
    if Commits(a, e) {
      assert f.log[..e.cut] == f.log && g.log[..e.cut] == g.log;
      CommitAgrees(a, b, counts, e.op.metaBlock);
      EffectDisk(a, b, e.op);
    } else {
      SameWrites(a.disk, b.disk, g.log[..e.cut]);
      SameWrites(b.disk, b.disk, g.log[..e.cut]);
      SlotsKept(a.disk, Apply(a.disk, f.log[..e.cut]), a.m, a.last.header);
    }
  }

  lemma SlotsKept(d: Disk, e: Disk, m: Manager, h: Header)
    requires Slots(d, m, h) && e.h1 == d.h1 && e.h2 == d.h2
    ensures Slots(e, m, h)
  {
  }

  lemma EffectDisk(a: Store, b: Store, op: Op)
    requires CanAttempt(a, op) && CanAttempt(b, op) && op.CommitHeader? && DoAsWritten(a, op).Some?
    ensures var f, g := DoAsWritten(a, op).value, Do(b, op);
            f.s.disk == Apply(a.disk, f.log) && g.s.disk == Apply(b.disk, g.log)
  {
    hide Apply, SaveFreeList, SaveFreeListAsWritten;
  }

  lemma HangAgrees(a: Store, b: Store, counts: bool, e: RawEvent)
    requires Inv(b) && Agrees(a, b, counts) && RawPossible(a, e) && e.Hung?
    ensures var a' := RawAfter(a, e);
            var b' := IdealReopened(a, b, e);
            && Inv(b') && SameDisks(a', b') && Slots(a'.disk, a.m, a'.last.header) && a'.last == a.last
            && a'.m == Reopen(a'.disk) && b'.m == Reopen(b'.disk) && a'.writers == b'.writers == map[]
  {
    hide Reopen, EndlessLog, Fresh, WritersOk, Stored, Owned, NoDup, DoAsWritten, OpenWriter;
    assert HungLog(a, e.op, e.turns) == HungLog(b, e.op, e.turns);
    SameLive(a.last, b.last);
    HungAvoids(b, e.op, e.turns);
    hide HungLog, Live;
    var d := Apply(a.disk, HungLog(a, e.op, e.turns));
    AvoidsFrame(a.disk, HungLog(a, e.op, e.turns), Live(a.last));
    hide SnapshotOnDisk;
    SnapshotFrame(a.disk.blocks, d.blocks, b.last);
    RestoredInv(b.disk.(blocks := d.blocks), b.m, b.last);
  }

  /** What a stop leaves, in an operation that would return or inside an endless loop. */
  lemma ReopenAgrees(a: Store, b: Store, counts: bool, e: RawEvent)
    requires Inv(b) && Agrees(a, b, counts) && RawPossible(a, e) && !e.Returned?
    ensures e.Stopped? ==> Possible(b, Crashed(e.op, e.cut))
    ensures var a', b' := RawAfter(a, e), IdealReopened(a, b, e);
            && Inv(b') && Restored(a')
            && a'.last == (if Commits(a, e) then DoAsWritten(a, e.op).value.s.last else a.last)
            && (SameStates(a', b') <==> CountsAfter(a, counts, e))
            && (CountsAfter(a, counts, e) ==> Agrees(a', b', true))
            && (NeverHandsOut(a'.m, Live(a'.last)) <==> CountsAfter(a, counts, e))
  {
    hide Inv, Agrees, SameDisks, SameStates, CountOk, Slots, Restored, Reopen, DoAsWritten, Do, Live, NeverHandsOut,
      HungLog, CrashEffect, CrashDuring;
    if e.Stopped? {
      StopAgrees(a, b, counts, e);
      ReopenedAgrees(RawAfter(a, e), if Commits(a, e) then DoAsWritten(a, e.op).value.s.m else a.m,
                     CrashDuring(b, e.op, e.cut), CountsAfter(a, counts, e));
    } else {
      HangAgrees(a, b, counts, e);
      AgreesCounts(a, b, counts);
      SameCountOk(RawAfter(a, e).last, a.last, IdealReopened(a, b, e).last, b.last, counts);
      ReopenedAgrees(RawAfter(a, e), a.m, IdealReopened(a, b, e), counts);
    }
  }

  lemma SameCountOk(c: Snapshot, c0: Snapshot, d: Snapshot, d0: Snapshot, counts: bool)
    requires CountOk(c0, d0, counts) && c == c0 && d == d0
    ensures CountOk(c, d, counts)
  {
  }

  lemma AgreesCounts(a: Store, b: Store, counts: bool)
    requires Agrees(a, b, counts)
    ensures CountOk(a.last, b.last, counts) && SameStates(a, b)
  {
  }

  // ---------------------------------------------------------------- every run

  /** `s` is, up to the block counts of its headers, a store for which everything proved of the intended one holds. */
  ghost predicate Sound(s: Store, counts: bool)
  {
    exists b :: Inv(b) && Agrees(s, b, counts)
  }

  lemma CreateSound()
    ensures Inv(Create()) && Agrees(Create(), Create(), true) && Sound(Create(), true)
  {
    CreateInv();
    assert Agrees(Create(), Create(), true);
  }

  lemma EventSound(a: Store, counts: bool, e: RawEvent)
    requires Sound(a, counts) && RawPossible(a, e) && (e.Returned? || CountsAfter(a, counts, e))
    ensures Sound(RawAfter(a, e), CountsAfter(a, counts, e))
  {
    hide Inv, Agrees, RawPossible, CountsAfter, RawAfter;
    var b :| Inv(b) && Agrees(a, b, counts);
    if e.Returned? {
      StepAgrees(a, b, counts, e.op);
      StepInv(b, e.op);
    } else {
      ReopenAgrees(a, b, counts, e);
    }
  }

  lemma {:induction false} RunSound(a: Store, counts: bool, es: seq<RawEvent>)
    requires Sound(a, counts) && RawRun(a, es) && SafeReopens(a, counts, es)
    ensures Sound(RawFinal(a, es), CountsAtEnd(a, counts, es))
    decreases |es|
  {
    hide Sound, RawPossible, CountsAfter, RawAfter;
    if es != [] {
      EventSound(a, counts, es[0]);
      RunSound(RawAfter(a, es[0]), CountsAfter(a, counts, es[0]), es[1..]);
    }
  }

  /** Everything in the store but the block count of its header is as it should be. */
  ghost predicate Intact(s: Store)
  {
    && Slots(s.disk, s.m, s.last.header)
    && SnapshotOnDisk(s.disk.blocks, s.last) && WritersOk(s.disk.blocks, s.writers)
    && Live(s.last) !! Owned(s.writers) && Fresh(s.m, Taken(s))
  }

  lemma SoundIntact(a: Store, counts: bool)
    requires Sound(a, counts)
    ensures Intact(a)
  {
    var b :| Inv(b) && Agrees(a, b, counts);
    SameLive(a.last, b.last);
    hide Stored, Fresh, NoDup, Reloadable, StreamOk, Live, Owned, Elems;
  }

  /**
    Safety of the code as written: after every run whose reopens go back to headers that count all their blocks, every
    stream and the snapshot are complete on disk, and no block that an operation takes belongs to any of them.
   */
  lemma {:induction false} AsWrittenSafety(es: seq<RawEvent>, op: Op)
    requires RawRun(Create(), es) && SafeReopens(Create(), true, es)
    requires RawPossible(RawFinal(Create(), es), Returned(op))
    ensures var s := RawFinal(Create(), es);
            var ids := DoAsWritten(s, op).value.ids;
            Intact(s) && Elems(ids) !! Live(s.last) && Elems(ids) !! Owned(s.writers)
  {
    hide Sound, RawRun, RawFinal, RawPossible, SafeReopens, Create, Inv, Agrees, Intact, DoAsWritten, Do, Live, Owned;
    CreateSound();
    RunSound(Create(), true, es);
    var s := RawFinal(Create(), es);
    SoundIntact(s, CountsAtEnd(Create(), true, es));
    SoundTakes(s, CountsAtEnd(Create(), true, es), op);
  }

  /** After such a run every closed stream and every stream of the last snapshot reads back, under any chunking. */
  lemma {:induction false} AsWrittenReadsBack(es: seq<RawEvent>, k: nat, sizes: seq<nat>, was: seq<Byte>)
    requires RawRun(Create(), es) && SafeReopens(Create(), true, es) && |was| == FB_SIZE
    ensures StreamReads(RawFinal(Create(), es), k, sizes, was)
  {
    hide Sound, RawRun, RawFinal, SafeReopens, Create, Inv, Agrees, Live, Owned, Slots, Fresh, SnapshotOnDisk,
      WritersOk, StreamReads;
    CreateSound();
    RunSound(Create(), true, es);
    SoundIntact(RawFinal(Create(), es), CountsAtEnd(Create(), true, es));
    OnDiskReads(RawFinal(Create(), es), k, sizes, was);
  }

  lemma SoundTakes(a: Store, counts: bool, op: Op)
    requires Sound(a, counts) && RawPossible(a, Returned(op))
    ensures var ids := DoAsWritten(a, op).value.ids;
            Elems(ids) !! Live(a.last) && Elems(ids) !! Owned(a.writers)
  {
    hide Inv, Agrees, RawPossible, DoAsWritten, Do, Live, Owned;
    var b :| Inv(b) && Agrees(a, b, counts);
    AgreesMemory(a, b, counts);
    StepAgrees(a, b, counts, op);
    StepTakes(b, op);
  }

  /**
    Checkpoint atomicity of the code as written. After every such run, stopping the machine at any write of any
    operation, or after any number of turns of a loop that never ends, leaves exactly the last snapshot or the one
    whose header got written, complete on disk, with the manager its header describes. The reopened allocator stays
    off its blocks if and only if, when that header was committed, nothing had been read or the free list was not
    empty.
   */
  lemma {:induction false} AsWrittenAtomicity(es: seq<RawEvent>, e: RawEvent)
    requires RawRun(Create(), es) && SafeReopens(Create(), true, es)
    requires RawPossible(RawFinal(Create(), es), e) && !e.Returned?
    ensures var s, s' := RawFinal(Create(), es), RawAfter(RawFinal(Create(), es), e);
            && Restored(s')
            && s'.last == (if Commits(s, e) then DoAsWritten(s, e.op).value.s.last else s.last)
            && (NeverHandsOut(s'.m, Live(s'.last)) <==> CountsAfter(s, CountsAtEnd(Create(), true, es), e))
  {
    hide RawRun, RawFinal, RawPossible, SafeReopens, Create, Inv, Agrees, Restored, DoAsWritten, RawAfter, Commits,
      Live, NeverHandsOut, CountsAfter;
    CreateSound();
    RunSound(Create(), true, es);
    var s, counts := RawFinal(Create(), es), CountsAtEnd(Create(), true, es);
    var b :| Inv(b) && Agrees(s, b, counts);
    ReopenAgrees(s, b, counts, e);
  }

  // ---------------------------------------------------------------- the run of the intended store

  function Ideal(e: RawEvent): Event
    requires !e.Hung?
  {
    if e.Stopped? then Crashed(e.op, e.cut) else Done(e.op)
  }

  ghost predicate NoHang(es: seq<RawEvent>)
  {
    forall i :: 0 <= i < |es| ==> !es[i].Hung?
  }

  function Ideals(es: seq<RawEvent>): seq<Event>
    requires forall i :: 0 <= i < |es| ==> !es[i].Hung?
  {
    seq(|es|, i requires 0 <= i < |es| => Ideal(es[i]))
  }

  /** The same events are possible for the intended store, and after each of them the two are the same. */
  ghost predicate Follows(a: Store, b: Store, es: seq<RawEvent>)
    requires RawRun(a, es) && NoHang(es)
    decreases |es|
  {
    && SameStates(a, b)
    && (es == [] ||
        (Possible(b, Ideal(es[0])) && Follows(RawAfter(a, es[0]), After(b, Ideal(es[0])), es[1..])))
  }

  lemma {:induction false} FollowsIff(a: Store, b: Store, counts: bool, es: seq<RawEvent>)
    requires Inv(b) && Agrees(a, b, counts) && RawRun(a, es) && NoHang(es)
    ensures Follows(a, b, es) <==> SafeReopens(a, counts, es)
    ensures SafeReopens(a, counts, es) ==>
              IsRun(b, Ideals(es)) && SameStates(RawFinal(a, es), Final(b, Ideals(es)))
    decreases |es|
  {
    hide Inv, Agrees, RawPossible, RawAfter, CountsAfter, SameStates, After, Live, Do;
    AgreesCounts(a, b, counts);
    if es != [] {
      var e, a' := es[0], RawAfter(a, es[0]);
      EventAgrees(a, b, counts, e);
      var b' := After(b, Ideal(e));
      assert Ideals(es)[0] == Ideal(e) && Ideals(es)[1..] == Ideals(es[1..]);
      if e.Returned? || CountsAfter(a, counts, e) {
        FollowsIff(a', b', CountsAfter(a, counts, e), es[1..]);
      }
    }
  }

  lemma EventAgrees(a: Store, b: Store, counts: bool, e: RawEvent)
    requires Inv(b) && Agrees(a, b, counts) && RawPossible(a, e) && !e.Hung?
    ensures Possible(b, Ideal(e))
    ensures var a', b' := RawAfter(a, e), After(b, Ideal(e));
            && Inv(b')
            && (e.Returned? || CountsAfter(a, counts, e) ==> Agrees(a', b', CountsAfter(a, counts, e)))
            && (e.Stopped? ==> (SameStates(a', b') <==> CountsAfter(a, counts, e)))
  {
    hide Inv, Agrees, RawPossible, CountsAfter, SameStates, NeverHandsOut, Live, Restored, Do, CrashDuring;
    if e.Returned? {
      StepAgrees(a, b, counts, e.op);
      StepInv(b, e.op);
    } else {
      ReopenAgrees(a, b, counts, e);
    }
  }

  /** What is possible as written is what is possible for the intended store and fits the block at hand. */
  lemma PossibleIff(a: Store, b: Store, counts: bool, e: RawEvent)
    requires Inv(b) && Agrees(a, b, counts) && !e.Hung?
    ensures RawPossible(a, e) <==> Possible(b, Ideal(e)) && ReturnsAsWritten(b, e.op)
  {
    hide Inv, Agrees, Do, DoAsWritten, ReturnsAsWritten;
    AgreesMemory(a, b, counts);
    SameDemands(a, b, e.op);
    if CanAttempt(a, e.op) {
      ReturnsIff(a, e.op);
    }
    if Possible(b, Ideal(e)) && ReturnsAsWritten(b, e.op) {
      TakesBelow(b, e.op);
      SameTakes(a, b, e.op);
    }
    if RawPossible(a, e) {
      SameTakes(a, b, e.op);
    }
  }

  /** The client's contract looks only at what the two have in common. */
  lemma SameDemands(a: Store, b: Store, op: Op)
    requires a.m == b.m && a.writers == b.writers && Live(a.last) == Live(b.last)
    ensures Enabled(a, op) <==> Enabled(b, op)
    ensures CanAttempt(a, op) <==> CanAttempt(b, op)
    ensures CanAttempt(a, op) ==> (ReturnsAsWritten(a, op) <==> ReturnsAsWritten(b, op))
  {
    hide SaveFreeList, WriteData, Live, Apply, MetaFrom;
  }

  lemma SameTakes(a: Store, b: Store, op: Op)
    requires a.m == b.m && a.writers == b.writers && CanAttempt(a, op) && ReturnsAsWritten(a, op)
    ensures CanAttempt(b, op) && DoAsWritten(a, op).Some?
    ensures DoAsWritten(a, op).value.ids == Do(b, op).ids
    ensures |DoAsWritten(a, op).value.log| == |Do(b, op).log|
  {
    hide SaveFreeList, WriteData, Live, Apply, MetaFrom, AsWritten, SaveFreeListAsWritten;
    ReturnsIff(a, op);
    match op {
      case Write(k, data) => AsWrittenIff(a.m, a.writers[k].w, data);
      case CommitHeader(_) => AsWrittenSavesIff(a.m);
      case _ =>
    }
  }

  /** Every block an operation takes lies below the high-water mark it leaves. */
  lemma TakesBelow(b: Store, op: Op)
    requires Inv(b) && Enabled(b, op)
    ensures forall x :: x in Do(b, op).ids ==> x < MAX_BLOCKS
  {
    hide Slots, SnapshotOnDisk, Reloadable, WritersOk, WriteData, SaveFreeList, Owned, Live, MetaFrom;
    match op {
      case Open(k) => AllocFresh(b.m, Taken(b));
      case Write(k, data) => WriteDataFresh(b.m, b.writers[k].w, data, Taken(b));
      case CommitHeader(meta) => SaveFreeListFresh(b.m, Taken(b));
      case _ =>
    }
    assert forall x :: x in Do(b, op).ids ==> x in Elems(Do(b, op).ids);
  }

  /**
    The code as written goes through the same states as the intended store (the same memory, streams, blocks and
    snapshots, and the same headers but for their block counts) in every run of operations that return, stops included,
    if and only if every reopen goes back to a header that was committed with nothing read or with a free block.
   */
  lemma {:induction false} AsWrittenRunsIff(es: seq<RawEvent>)
    requires RawRun(Create(), es) && NoHang(es)
    ensures Follows(Create(), Create(), es) <==> SafeReopens(Create(), true, es)
    ensures SafeReopens(Create(), true, es) ==>
              IsRun(Create(), Ideals(es)) && SameStates(RawFinal(Create(), es), Final(Create(), Ideals(es)))
  {
    hide Inv, Agrees, Create, RawRun, Follows, SafeReopens, SameStates;
    CreateSound();
    FollowsIff(Create(), Create(), true, es);
  }

  function Raws(es: seq<Event>): seq<RawEvent>
  {
    seq(|es|, i requires 0 <= i < |es| => Returned(es[i].op))
  }

  /** Every operation of the run, which has no crash, returns as written. */
  ghost predicate AllReturn(s: Store, es: seq<Event>)
    requires IsRun(s, es)
    decreases |es|
  {
    es == [] ||
    (es[0].Done? && ReturnsAsWritten(s, es[0].op) && AllReturn(After(s, es[0]), es[1..]))
  }

  lemma {:induction false} ReturnsFollow(a: Store, b: Store, counts: bool, es: seq<Event>)
    requires Inv(b) && Agrees(a, b, counts) && IsRun(b, es) && AllReturn(b, es)
    ensures RawRun(a, Raws(es)) && SameStates(RawFinal(a, Raws(es)), Final(b, es))
    decreases |es|
  {
    hide Inv, Agrees, RawPossible, RawAfter, CountsAfter, SameStates, Live, Do, ReturnsAsWritten;
    AgreesCounts(a, b, counts);
    if es != [] {
      var e := Returned(es[0].op);
      assert Raws(es)[0] == e && Raws(es)[1..] == Raws(es[1..]) && Ideal(e) == es[0];
      PossibleIff(a, b, counts, e);
      EventAgrees(a, b, counts, e);
      ReturnsFollow(RawAfter(a, e), After(b, es[0]), CountsAfter(a, counts, e), es[1..]);
    }
  }

  /**
    Without stops no condition on the free list is needed: every run of the intended store whose writes fit their
    blocks and whose commits free at most 1021 blocks is a run of the code as written, with the same states.
   */
  lemma {:induction false} AsWrittenReturns(es: seq<Event>)
    requires IsRun(Create(), es) && AllReturn(Create(), es)
    ensures RawRun(Create(), Raws(es)) && SameStates(RawFinal(Create(), Raws(es)), Final(Create(), es))
  {
    hide Inv, Agrees, Create, AllReturn, RawRun, SameStates;
    CreateSound();
    ReturnsFollow(Create(), Create(), true, es);
  }

  // ---------------------------------------------------------------- every run, whatever its reopens

  /** What holds of the code as written in any case. */
  ghost predicate Loose(s: Store)
  {
    && Slots(s.disk, s.m, s.last.header) && s.last.header.freeListId < U64_LIMIT
    && AllU64(s.m.usedBlocks) && Below(Taken(s))
  }

  ghost predicate Below(xs: set<nat>)
  {
    forall x :: x in xs ==> x < U64_LIMIT
  }

  predicate NextU64(r: Reader)
  {
    r.next < U64_LIMIT
  }

  lemma LoadNext(d: Disk, was: seq<Byte>, id: nat)
    requires |was| == FB_SIZE
    ensures NextU64(Load(d, was, id))
  {
    hide BlockContents, FromLe;
    FromLeBound(BlockContents(d, id, was)[..LINK]);
    Pow256Widths();
  }

  lemma {:induction false} ReadDataNext(d: Disk, r: Reader, n: nat)
    requires ReaderShape(r) && NextU64(r)
    ensures NextU64(ReadData(d, r, n).r) && AllU64(ReadData(d, r, n).loads)
    decreases n, r.offset
  {
    if r.offset + n > FB_SIZE {
      LoadNext(d, r.buf, r.next);
      ReadDataNext(d, Load(d, r.buf, r.next), n - (FB_SIZE - r.offset));
    }
  }

  lemma {:induction false} ReadIdsNext(d: Disk, r: Reader, n: nat)
    requires ReaderShape(r) && NextU64(r)
    ensures AllU64(ReadIds(d, r, n).loads)
    decreases n
  {
    hide ReadData, NextU64;
    if n > 0 {
      ReadDataNext(d, r, 8);
      ReadIdsNext(d, ReadData(d, r, 8).r, n - 1);
    }
  }

  /** Whatever is on disk, a reopen follows the header in force. */
  lemma LooseReopen(d: Disk, m0: Manager, c: Snapshot)
    requires Slots(d, m0, c.header) && c.header.freeListId < U64_LIMIT && Below(Live(c))
    ensures var m := Reopen(d);
            && Loose(Store(d, m, map[], c))
            && (c.header.freeListId == INVALID_BLOCK ==> m.freeList == [])
  {
    var s := Store(d, Reopen(d), map[], c);
    assert Taken(s) == Live(c) by {
      assert Owned(map[]) == {};
    }
    hide Live, Owned, ReadData, ReadIds, Load;
    if c.header.freeListId != INVALID_BLOCK {
      var r := Load(d, ZeroBuffer(), c.header.freeListId);
      LoadNext(d, ZeroBuffer(), c.header.freeListId);
      ReadDataNext(d, r, 8);
      ReadIdsNext(d, ReadData(d, r, 8).r, FromLe(ReadData(d, r, 8).bytes));
    }
  }

  lemma MetaTaken(a: Store, meta: nat)
    ensures Elems(MetaOf(a, meta).chain) <= Taken(a)
  {
    hide MetaOf;
    MetaLeads(a, meta);
    var st := MetaOf(a, meta);
    if ClosedNow(a.writers, st) {
      var k :| k in a.writers && a.writers[k].closed && Stream(a.writers[k].chain, a.writers[k].bytes) == st;
      assert Elems(st.chain) <= Owned(a.writers);
    }
  }

  lemma BelowSum(xs: set<nat>, ids: seq<nat>)
    requires Below(xs) && forall x :: x in ids ==> x < MAX_BLOCKS
    ensures Below(xs + Elems(ids))
  {
  }

  /** The blocks in use after an operation were in use before it, or it took them. */
  lemma TakenAfter(a: Store, op: Op)
    requires RawPossible(a, Returned(op))
    ensures Taken(DoAsWritten(a, op).value.s) <= Taken(a) + Elems(DoAsWritten(a, op).value.ids)
  {
    hide SaveFreeList, SaveFreeListAsWritten, WriteData, Apply, AsWritten, Owned, Live, MetaOf, Enabled;
    match op {
      case Open(k) => Space.OpenTaken(a, k);
      case Write(k, data) =>
        AsWrittenIff(a.m, a.writers[k].w, data);
        Space.WriteTaken(a, k, data);
      case Close(k) => Space.CloseTaken(a, k);
      case ReadBlock(id) => Space.ReadTaken(a, id);
      case CommitHeader(meta) =>
        CommitEffects(a, a, meta);
        MetaTaken(a, meta);
        Space.SplitBlocks(a.writers);
        Space.LiveParts(DoAsWritten(a, op).value.s.last);
        hide StreamBlocks, Elems;
    }
  }

  /** Writing blocks leaves the headers alone; committing replaces the older one by a newer. */
  lemma SlotsAfter(a: Store, op: Op)
    requires Loose(a) && RawPossible(a, Returned(op))
    ensures var s := DoAsWritten(a, op).value.s;
            Slots(s.disk, s.m, s.last.header) && s.last.header.freeListId < U64_LIMIT && AllU64(s.m.usedBlocks)
  {
    hide SaveFreeList, SaveFreeListAsWritten, WriteData, Apply, AsWritten, Owned, Live, MetaOf, Below;
    match op {
      case Write(k, data) =>
        AsWrittenIff(a.m, a.writers[k].w, data);
        FitsLog(a.m, a.writers[k].w, data);
        SameWrites(a.disk, a.disk, []);
      case Close(k) =>
        SameWrites(a.disk, a.disk, FlushLog(a.writers[k].w));
      case CommitHeader(meta) =>
        CommitEffects(a, a, meta);
        CommitWrites(a.disk, a.m, meta, false);
        SavedId(a.m);
      case ReadBlock(id) =>
        LiveBelow(a, id);
      case _ =>
    }
  }

  lemma LiveBelow(a: Store, id: nat)
    requires Loose(a) && id in Live(a.last)
    ensures id < U64_LIMIT
  {
    assert id in Taken(a);
  }

  lemma SavedId(m: Manager)
    ensures var s := SaveFreeList(m); if m.usedBlocks == [] then s.id == INVALID_BLOCK else s.id in s.chain
  {
  }

  lemma LooseStep(a: Store, op: Op)
    requires Loose(a) && RawPossible(a, Returned(op))
    ensures Loose(DoAsWritten(a, op).value.s)
  {
    SlotsAfter(a, op);
    TakenAfter(a, op);
    hide Taken, DoAsWritten, Enabled, Slots, Elems;
    BelowSum(Taken(a), DoAsWritten(a, op).value.ids);
  }

  /** What an operation as written writes before a header write are blocks. */
  lemma RawPrefix(a: Store, e: RawEvent)
    requires RawPossible(a, e) && e.Stopped? && !Commits(a, e)
    ensures forall i :: 0 <= i < e.cut ==> DoAsWritten(a, e.op).value.log[i].BlockWrite?
  {
    hide SaveFreeList, SaveFreeListAsWritten, WriteData, Apply, AsWritten, Owned, Live, MetaOf, Enabled;
    match e.op {
      case Write(k, data) =>
        AsWrittenIff(a.m, a.writers[k].w, data);
        FitsLog(a.m, a.writers[k].w, data);
      case CommitHeader(meta) =>
        AsWrittenSavesIff(a.m);
        SavedWrites(a.m);
      case _ =>
    }
  }

  lemma {:induction false} LoopTurnsBlocks(s: LoopState, n: nat)
    requires LoopShape(s) && Avoids(s.log, {})
    ensures Avoids(LoopTurns(s, n).log, {})
    decreases n
  {
    if n > 0 && LoopGuard(s) {
      LoopTurnsBlocks(LoopTurn(s), n - 1);
    }
  }

  lemma {:induction false} EndlessBlocks(m: Manager, w: Writer, chunks: seq<seq<Byte>>, turns: nat)
    requires WriterShape(w)
    ensures Avoids(EndlessLog(m, w, chunks, turns), {})
    decreases |chunks|
  {
    hide AsWritten, WriteData;
    if chunks != [] {
      AsWrittenIff(m, w, chunks[0]);
      FitsLog(m, w, chunks[0]);
      if AsWritten(m, w, chunks[0]).Some? {
        EndlessBlocks(m, PutInBlock(w, chunks[0]), chunks[1..], turns);
      } else {
        LoopTurnsBlocks(LoopStart(m, w, chunks[0]), turns);
      }
    }
  }

  lemma HungBlocks(a: Store, op: Op, turns: nat)
    requires CanAttempt(a, op)
    ensures Avoids(HungLog(a, op, turns), {})
  {
    hide EndlessLog;
    match op {
      case Write(k, data) => EndlessBlocks(a.m, a.writers[k].w, [data], turns);
      case CommitHeader(_) =>
        EndlessBlocks(OpenWriter(a.m).m, OpenWriter(a.m).w, FreeListChunks(a.m.usedBlocks), turns);
      case _ =>
    }
  }

  lemma LooseLive(a: Store)
    requires Loose(a)
    ensures Below(Live(a.last))
  {
  }

  /** After any event: the active slot holds the header in force, and the other one an older header. */
  lemma LooseEvent(a: Store, e: RawEvent)
    requires Loose(a) && RawPossible(a, e)
    ensures Loose(RawAfter(a, e))
    ensures !e.Returned? && RawAfter(a, e).last.header.freeListId == INVALID_BLOCK ==> RawAfter(a, e).m.freeList == []
  {
    var a' := RawAfter(a, e);
    hide DoAsWritten, Reopen, Enabled, Live, Taken, Apply, Slots, HungLog;
    match e {
      case Returned(op) => LooseStep(a, op);
      case Stopped(op, cut) =>
        var f := DoAsWritten(a, op).value;
        if Commits(a, e) {
          LooseStep(a, op);
          assert f.log[..cut] == f.log;
          EffectDisk(a, a, op);
          LooseLive(f.s);
          LooseReopen(a'.disk, f.s.m, a'.last);
        } else {
          RawPrefix(a, e);
          SameWrites(a.disk, a.disk, f.log[..cut]);
          SlotsKept(a.disk, a'.disk, a.m, a.last.header);
          LooseLive(a);
          LooseReopen(a'.disk, a.m, a'.last);
        }
      case Hung(op, turns) =>
        HungBlocks(a, op, turns);
        AvoidsFrame(a.disk, HungLog(a, op, turns), {});
        SlotsKept(a.disk, a'.disk, a.m, a.last.header);
        LooseLive(a);
        LooseReopen(a'.disk, a.m, a'.last);
    }
  }

  lemma {:induction false} RunLoose(a: Store, es: seq<RawEvent>)
    requires Loose(a) && RawRun(a, es)
    ensures Loose(RawFinal(a, es))
    decreases |es|
  {
    hide Loose, RawPossible, RawAfter;
    if es != [] {
      LooseEvent(a, es[0]);
      RunLoose(RawAfter(a, es[0]), es[1..]);
    }
  }

  lemma CreateLoose()
    ensures Loose(Create())
  {
    var s := Create();
    assert Taken(s) == {};
  }

  /** No commit of the run found a block to free. */
  ghost predicate NothingFreed(s: Store, es: seq<RawEvent>)
    requires RawRun(s, es)
    decreases |es|
  {
    es == [] ||
    ((es[0].op.CommitHeader? ==> s.m.usedBlocks == []) && NothingFreed(RawAfter(s, es[0]), es[1..]))
  }

  ghost predicate Unfreed(s: Store)
  {
    Loose(s) && s.m.freeList == [] && s.last.header.freeListId == INVALID_BLOCK
  }

  lemma UnfreedEvent(a: Store, e: RawEvent)
    requires Unfreed(a) && RawPossible(a, e) && (e.op.CommitHeader? ==> a.m.usedBlocks == [])
    ensures Unfreed(RawAfter(a, e))
  {
    LooseEvent(a, e);
    hide Loose, Reopen, Live, Taken, Apply, WriteData, Enabled, HungLog, MetaOf;
    if !e.Hung? {
      match e.op {
        case Write(k, data) =>
          AsWrittenIff(a.m, a.writers[k].w, data);
          FitsLog(a.m, a.writers[k].w, data);
        case CommitHeader(meta) =>
          CommitEffects(a, a, meta);
        case _ =>
      }
    }
  }

  lemma {:induction false} RunUnfreed(a: Store, es: seq<RawEvent>)
    requires Unfreed(a) && RawRun(a, es) && NothingFreed(a, es)
    ensures Unfreed(RawFinal(a, es))
    decreases |es|
  {
    hide Unfreed, RawPossible, RawAfter;
    if es != [] {
      UnfreedEvent(a, es[0]);
      RunUnfreed(RawAfter(a, es[0]), es[1..]);
    }
  }

  /** The first commit that frees a block never counts the block its own list goes to. */
  lemma {:induction false} FirstFreeingCommit(es: seq<RawEvent>, meta: nat, counts: bool)
    requires RawRun(Create(), es) && NothingFreed(Create(), es)
    requires RawPossible(RawFinal(Create(), es), Returned(CommitHeader(meta)))
    requires RawFinal(Create(), es).m.usedBlocks != []
    ensures !CountsAfter(RawFinal(Create(), es), counts, Returned(CommitHeader(meta)))
  {
    hide Loose, RawRun, RawFinal, RawPossible, NothingFreed;
    CreateLoose();
    RunUnfreed(Create(), es);
  }

  // ---------------------------------------------------------------- free-list persistence

  /** What fits one block is written the same way whatever the manager, once the block is chosen. */
  lemma {:induction false} ChunksFit(m: Manager, w: Writer, chunks: seq<seq<Byte>>)
    requires WriterShape(w) && w.offset + |Concat(chunks)| <= FB_SIZE
    ensures var r := WriteChunks(m, w, chunks);
            r.m == m && r.ids == [] && r.log == [] && forall m': Manager :: WriteChunks(m', w, chunks).w == r.w
    decreases |chunks|
  {
    if chunks != [] {
      hide WriteData;
      forall m': Manager
        ensures WriteChunks(m', w, chunks).w == WriteChunks(m', PutInBlock(w, chunks[0]), chunks[1..]).w
      {
        FitsLog(m', w, chunks[0]);
      }
      FitsLog(m, w, chunks[0]);
      ChunksFit(m, PutInBlock(w, chunks[0]), chunks[1..]);
    }
  }

  /** At most 1021 ids are saved in the one block that the allocator hands out next, whatever else it holds. */
  lemma {:induction false} SavedInOne(d: Disk, m: Manager)
    requires m.usedBlocks != [] && |m.usedBlocks| <= 1021 && Alloc(m).id < MAX_BLOCKS
    ensures var s := SaveFreeList(m);
            && s.id == Alloc(m).id && s.chain == [s.id] && s.m == Alloc(m).m
            && Stored(Apply(d, s.log).blocks, s.chain, FreeListBytes(m.usedBlocks))
  {
    var id, chunks := Alloc(m).id, FreeListChunks(m.usedBlocks);
    var m1 := Manager([], m.usedBlocks, id, 0, 0, 0);
    var o, o1 := OpenWriter(m), OpenWriter(m1);
    FreeListLayout(m.usedBlocks, 0);
    hide FreeListChunks, FreeListBytes, WriteChunks, Stored, Apply;
    ChunksFit(o.m, o.w, chunks);
    ChunksFit(o1.m, o1.w, chunks);
    StreamStored(d, m1, chunks, {});
    assert SaveStream(m, chunks).log == SaveStream(m1, chunks).log;
  }

  /**
    Free-list persistence of the code as written. After every run, whatever its reopens went back to, `write_header`
    returns if and only if at most 1021 blocks were read since the last commit; and then a reopen gives back the
    manager in memory if and only if none was read, or the free list in hand was not empty.
   */
  lemma {:induction false} AsWrittenPersistence(es: seq<RawEvent>, meta: nat)
    requires RawRun(Create(), es)
    ensures var s := RawFinal(Create(), es);
            var c := WriteHeaderAsWritten(s.m, meta);
            && (c.Some? <==> |s.m.usedBlocks| <= 1021)
            && (RawPossible(s, Returned(CommitHeader(meta))) ==>
                  (Reopen(Apply(s.disk, c.value.log)) == c.value.m.(usedBlocks := c.value.chain) <==>
                   s.m.usedBlocks == [] || s.m.freeList != []))
  {
    hide Loose, RawRun, RawFinal, RawPossible, Reopen, Apply, SaveFreeList, SaveFreeListAsWritten;
    CreateLoose();
    RunLoose(Create(), es);
    var s := RawFinal(Create(), es);
    AsWrittenSavesIff(s.m);
    if RawPossible(s, Returned(CommitHeader(meta))) {
      LoosePersists(s, meta);
    }
  }

  lemma LoosePersists(a: Store, meta: nat)
    requires Loose(a) && RawPossible(a, Returned(CommitHeader(meta)))
    ensures |a.m.usedBlocks| <= 1021
    ensures var c := WriteHeader(a.m, meta, false);
            Reopen(Apply(a.disk, c.log)) == c.m.(usedBlocks := c.chain) <==> a.m.usedBlocks == [] || a.m.freeList != []
  {
    var c := WriteHeader(a.m, meta, false);
    var d := Apply(a.disk, c.log);
    CommitEffects(a, a, meta);
    CommitWrites(a.disk, a.m, meta, false);
    assert AllU64(a.m.usedBlocks);
    if a.m.usedBlocks != [] {
      assert Alloc(a.m).id < MAX_BLOCKS by {
        FirstOfChain(a.m);
        assert c.chain == DoAsWritten(a, CommitHeader(meta)).value.ids;
      }
      SavedInOne(a.disk, a.m);
    }
    var snap := Snapshot(c.header, NoStream(), map[], c.chain, a.m.usedBlocks);
    hide Stored, Apply, Reopen, Taken, DoAsWritten, Enabled, SaveFreeList, FreeListBytes, AllU64;
    ReopenRestores(d, c.m, snap);
  }

  lemma FirstOfChain(m: Manager)
    requires m.usedBlocks != []
    ensures Alloc(m).id in SaveFreeList(m).chain
  {
  }
}

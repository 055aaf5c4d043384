/**
  The checkpoint store with the code as it is: the writer's loop that does not reload its offset, and the block count
  that is taken before the free list is saved.
 */
module AsWrittenStore {
  import opened Bytes
  import opened Collections
  import opened MetaStream
  import opened FreeList
  import opened Allocations
  import opened Checkpoint

  // ---------------------------------------------------------------- the block count as written

  /** The store after `write_header` as written, crashed or closed right after it, and reopened. */
  ghost function AsWrittenReopened(s: Store, meta: nat): Manager
  {
    Reopen(Apply(s.disk, WriteHeader(s.m, meta, false).log))
  }

  lemma UsedFitsWord(s: Store)
    requires Inv(s)
    ensures AllU64(s.m.usedBlocks) && |s.m.usedBlocks| < U64_LIMIT
  {
    hide Stored, WritersOk, Slots, SnapshotOnDisk, Reloadable;
    FreedAreFresh(s.m, s.m.maxBlock, Live(s.last), Taken(s), {});
    NoDupBound(s.m.usedBlocks, s.m.maxBlock);
  }

  lemma AsWrittenDisk(s: Store, meta: nat)
    requires Inv(s) && Enabled(s, CommitHeader(meta))
    ensures var c := WriteHeader(s.m, meta, false);
            AsWrittenReopened(s, meta) == c.m.(usedBlocks := c.chain, maxBlock := s.m.maxBlock)
  {
    hide Fresh, Stored, WritersOk, Reopen, SaveFreeList, FreeListBytes, AllU64, Live, NoDup, Elems, Reloadable;
    var c := WriteHeader(s.m, meta, false);
    var late := WriteHeader(s.m, meta, true);
    var d, d' := Apply(s.disk, late.log), Apply(s.disk, c.log);
    CommitDisk(s, meta);
    CommitFresh(s, meta);
    var f := SaveFreeList(s.m);
    var slot := if s.m.active == 1 then 0 else 1;
    ApplyConcat(s.disk, f.log, [HeaderWrite(slot, c.header)]);
    ApplyConcat(s.disk, f.log, [HeaderWrite(slot, late.header)]);
    ApplySingle(Apply(s.disk, f.log), HeaderWrite(slot, c.header));
    ApplySingle(Apply(s.disk, f.log), HeaderWrite(slot, late.header));
    var snap := Snapshot(c.header, NoStream(), map[], c.chain, s.m.usedBlocks);
    UsedFitsWord(s);
    ReopenRestores(d', c.m, snap);
  }

  /**
    The order of the code (`block_count` taken before the free list is saved) restores the high-water mark, and
    keeps the reopened allocator off the blocks of the snapshot, exactly when the free list in hand could supply
    every block the saved list needed. Otherwise some allocation hands out a block of the saved free list itself.
   */
  lemma AsWrittenBlockCountIff(s: Store, meta: nat)
    requires Inv(s) && Enabled(s, CommitHeader(meta))
    ensures var c := WriteHeader(s.m, meta, false);
            var m' := AsWrittenReopened(s, meta);
            var supplied := FreeListBlocks(|s.m.usedBlocks|) <= |s.m.freeList|;
            && (m'.maxBlock == c.m.maxBlock <==> supplied)
            && (NeverHandsOut(m', Live(Do(s, CommitHeader(meta)).s.last)) <==> supplied)
  {
    var c := WriteHeader(s.m, meta, false);
    var m' := AsWrittenReopened(s, meta);
    var s' := Do(s, CommitHeader(meta)).s;
    var f := SaveFreeList(s.m);
    var live := Live(s'.last);
    AsWrittenDisk(s, meta);
    SaveFreeListAllocs(s.disk, s.m, Taken(s));
    CommitFresh(s, meta);
    AllocNCounts(s.m, |f.chain|);
    assert Taken(s') == live + Owned(s'.writers);
    hide Inv, Enabled, AsWrittenReopened, SaveFreeList, FreeListBlocks, Owned, Taken, Fresh, Live;
    if |f.chain| <= |s.m.freeList| {
      SuppliedIsSafe(m', s'.m, s'.writers, live);
    } else {
      assert Elems(f.chain) <= live by {
        ChainIsLive(s'.last);
      }
      UnsuppliedIsUnsafe(s.m, f.chain, f.m, m', live);
    }
  }

  lemma ChainIsLive(c: Snapshot)
    ensures Elems(c.freeChain) <= Live(c)
  {
  }

  lemma SuppliedIsSafe(m': Manager, m: Manager, ws: map<nat, OpenStream>, live: set<nat>)
    requires Fresh(m, live + Owned(ws)) && m'.freeList == m.freeList && m'.maxBlock == m.maxBlock
    ensures NeverHandsOut(m', live)
  {
    forall n: nat
      ensures Alloc(AllocN(m', n)).id !in live
    {
      FreshNeverHandsOut(m', live, n);
    }
  }

  /** If the high-water mark falls back below a block taken at it, the allocator reaches that block again. */
  lemma UnsuppliedIsUnsafe(m: Manager, chain: seq<nat>, after: Manager, m': Manager, live: set<nat>)
    requires AllocsOf(m, chain, after) && |chain| > |m.freeList|
    requires m'.maxBlock == m.maxBlock && Elems(chain) <= live
    ensures !NeverHandsOut(m', live)
  {
    var i := |m.freeList|;
    AllocNCounts(m, i);
    assert chain[i] == m.maxBlock;
    assert chain[i] in Elems(chain);
    AllocNCounts(m', |m'.freeList|);
    assert Alloc(AllocN(m', |m'.freeList|)).id in live;
  }

  // ---------------------------------------------------------------- the code as written

  /** `write_header` as written, with the writer's loop and the block count as they are; `None` if it never returns. */
  ghost function WriteHeaderAsWritten(m: Manager, meta: nat): Option<Commit>
  {
    var s := SaveFreeListAsWritten(m);
    if s.None? then None else Some(HeaderAfter(m, meta, false, s.value))
  }

  /** An operation with the writer's loop and the block count as written; `None` if it never returns. */
  ghost function DoAsWritten(s: Store, op: Op): Option<Effect>
    requires CanAttempt(s, op)
  {
    match op
    case Write(k, data) =>
      var r := AsWritten(s.m, s.writers[k].w, data);
      if r.None? then None else Some(WriteEffect(s, k, data, r.value))
    case CommitHeader(meta) =>
      var c := WriteHeaderAsWritten(s.m, meta);
      if c.None? then None else Some(CommitEffect(s, meta, c.value))
    case _ => Some(Do(s, op))
  }

  predicate ReturnsAsWritten(s: Store, op: Op)
    requires CanAttempt(s, op)
  {
    match op
    case Write(k, data) => s.writers[k].w.offset + |data| <= FB_SIZE
    case CommitHeader(_) => |s.m.usedBlocks| <= 1021
    case _ => true
  }

  predicate AsIntended(s: Store, op: Op)
    requires CanAttempt(s, op)
  {
    ReturnsAsWritten(s, op) && (op.CommitHeader? ==> s.m.usedBlocks == [] || s.m.freeList != [])
  }

  lemma EarlyCountIff(s: Store, meta: nat)
    requires Inv(s) && Enabled(s, CommitHeader(meta)) && |s.m.usedBlocks| <= 1021
    ensures WriteHeader(s.m, meta, false) == WriteHeader(s.m, meta, true) <==>
              s.m.usedBlocks == [] || s.m.freeList != []
    ensures WriteHeader(s.m, meta, false).m == WriteHeader(s.m, meta, true).m
    ensures SaveFreeList(s.m).m.maxBlock == s.m.maxBlock <==> s.m.usedBlocks == [] || s.m.freeList != []
  {
    var f := SaveFreeList(s.m);
    hide Slots, SnapshotOnDisk, Reloadable, WritersOk, Stored, Fresh, SaveFreeList, Live, Owned, MetaOf;
    SaveFreeListAllocs(s.disk, s.m, Taken(s));
    AllocNCounts(s.m, |f.chain|);
    OneBlockSuffices(|s.m.usedBlocks|);
  }

  /** Whatever the state, an operation as written returns exactly when its data fits the block at hand. */
  lemma ReturnsIff(s: Store, op: Op)
    requires CanAttempt(s, op)
    ensures DoAsWritten(s, op).Some? <==> ReturnsAsWritten(s, op)
  {
    hide SaveFreeList, SaveFreeListAsWritten, AsWritten, WriteData;
    match op {
      case Write(k, data) => AsWrittenIff(s.m, s.writers[k].w, data);
      case CommitHeader(_) => AsWrittenSavesIff(s.m);
      case _ =>
    }
  }

  /**
    A step of the code as written returns exactly when a write fits the current block, or at most 1021 blocks were
    freed; and it is the intended step exactly when, besides, a commit that saves a free list has a free block for it.
   */
  lemma AsWrittenStepIff(s: Store, op: Op)
    requires Inv(s) && Enabled(s, op)
    ensures DoAsWritten(s, op).Some? <==> ReturnsAsWritten(s, op)
    ensures DoAsWritten(s, op) == Some(Do(s, op)) <==> AsIntended(s, op)
  {
    hide Inv, Apply, MetaOf, SaveFreeList, SaveFreeListAsWritten, AsWritten, WriteData;
    match op {
      case Write(k, data) =>
        AsWrittenIff(s.m, s.writers[k].w, data);
      case CommitHeader(meta) =>
        AsWrittenSavesIff(s.m);
        if |s.m.usedBlocks| <= 1021 {
          EarlyCountIff(s, meta);
        }
      case _ =>
    }
  }
}

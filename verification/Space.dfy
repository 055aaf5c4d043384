/**
  Where the blocks of the file are: which operations keep every block accounted for, which blocks a commit or a crash
  loses, and that a lost block stays lost.
 */
module Space {
  import opened Bytes
  import opened Collections
  import opened MetaStream
  import opened FreeList
  import opened Allocations
  import opened Checkpoint

  /** Block `x` is below the high-water mark, but not free, not needed by the last snapshot and owned by no stream. */
  ghost predicate Unaccounted(s: Store, x: nat)
  {
    x < s.m.maxBlock && x !in s.m.freeList && x !in Taken(s)
  }

  ghost predicate AllAccounted(s: Store)
  {
    forall x: nat :: !Unaccounted(s, x)
  }

  /** Allocations neither lose a free block nor skip a new one. */
  lemma AllocsCover(m: Manager, ids: seq<nat>, m': Manager, x: nat)
    requires AllocsOf(m, ids, m') && (x in m.freeList || m.maxBlock <= x < m'.maxBlock)
    ensures x in m'.freeList || x in ids
  {
    var f, n := |m.freeList|, |ids|;
    AllocNCounts(m, n);
    if x in m.freeList {
      var j :| 0 <= j < f && m.freeList[j] == x;
      if j < f - n {
        assert m'.freeList[j] == x;
      } else {
        AllocNCounts(m, f - 1 - j);
        assert ids[f - 1 - j] == x;
      }
    } else {
      var i := f + (x - m.maxBlock);
      AllocNCounts(m, i);
      assert ids[i] == x;
    }
  }

  lemma AllocsKeepAccounts(s: Store, ids: seq<nat>, s': Store)
    requires AllAccounted(s) && AllocsOf(s.m, ids, s'.m) && Taken(s') == Taken(s) + Elems(ids)
    ensures AllAccounted(s')
  {
    hide AllocsOf, Taken;
    forall x: nat
      ensures !Unaccounted(s', x)
    {
      assert !Unaccounted(s, x);
      if x in s.m.freeList || s.m.maxBlock <= x < s'.m.maxBlock {
        AllocsCover(s.m, ids, s'.m, x);
      }
    }
  }

  /** Opening, writing and closing streams and reading blocks lose no block. */
  lemma StepKeepsAccounts(s: Store, op: Op)
    requires Inv(s) && Enabled(s, op) && AllAccounted(s) && !op.CommitHeader?
    ensures AllAccounted(Do(s, op).s)
  {
    hide Inv, AllAccounted, AllocsOf, WriteData;
    var s' := Do(s, op).s;
    match op
    case Open(k) =>
      OpenAllocs(s.m);
      OpenTaken(s, k);
      AllocsKeepAccounts(s, OpenWriter(s.m).ids, s');
    case Write(k, data) =>
      WriteAllocs(s.m, s.writers[k].w, data);
      WriteTaken(s, k, data);
      AllocsKeepAccounts(s, WriteData(s.m, s.writers[k].w, data).ids, s');
    case Close(k) =>
      CloseTaken(s, k);
      SameAccounts(s, s');
    case ReadBlock(_) =>
      SameAccounts(s, s');
  }

  lemma SameAccounts(s: Store, s': Store)
    requires AllAccounted(s) && Taken(s') == Taken(s)
    requires s'.m.freeList == s.m.freeList && s'.m.maxBlock == s.m.maxBlock
    ensures AllAccounted(s')
  {
    hide Taken;
    forall x: nat
      ensures !Unaccounted(s', x)
    {
      assert !Unaccounted(s, x);
    }
  }

  lemma OpenTaken(s: Store, k: nat)
    requires k !in s.writers
    ensures Taken(Do(s, Open(k)).s) == Taken(s) + Elems(OpenWriter(s.m).ids)
  {
    hide Owned, Live;
    var r := OpenWriter(s.m);
    OwnedUpdate(s.writers, k, OpenStream(r.w, r.ids, [], false), r.ids);
  }

  lemma {:induction false} WriteTaken(s: Store, k: nat, data: seq<Byte>)
    requires CanAttempt(s, Write(k, data))
    ensures Taken(Do(s, Write(k, data)).s) == Taken(s) + Elems(WriteData(s.m, s.writers[k].w, data).ids)
  {
    hide Owned, Live, WriteData;
    var o := s.writers[k];
    var r := WriteData(s.m, o.w, data);
    OwnedUpdate(s.writers, k, OpenStream(r.w, o.chain + r.ids, o.bytes + data, false), r.ids);
  }

  lemma CloseTaken(s: Store, k: nat)
    requires CanAttempt(s, Close(k))
    ensures Taken(Do(s, Close(k)).s) == Taken(s)
  {
    hide Owned, Live;
    var o := s.writers[k];
    assert o.chain + [] == o.chain && Elems<nat>([]) == {};
    OwnedUpdate(s.writers, k, o.(w := Flush(o.w), closed := true), []);
  }

  // ---------------------------------------------------------------- commits

  /** The part of the free list that saving the freed blocks does not use up. */
  function LeftOver(m: Manager): seq<nat>
  {
    m.freeList[..Max0(|m.freeList| - FreeListBlocks(|m.usedBlocks|))]
  }

  /** The blocks a commit takes. */
  lemma CommitAllocs(s: Store, meta: nat)
    requires Inv(s) && Enabled(s, CommitHeader(meta))
    ensures var f, s' := SaveFreeList(s.m), Do(s, CommitHeader(meta)).s;
            && AllocsOf(s.m, f.chain, f.m) && f.m.freeList == LeftOver(s.m) && Fresh(f.m, Taken(s) + Elems(f.chain))
            && s'.m.freeList == s.m.usedBlocks && s'.m.maxBlock == f.m.maxBlock && s.m.maxBlock <= f.m.maxBlock
            && Taken(s) !! Elems(f.chain)
  {
    hide SaveFreeList, SnapshotOnDisk, Reloadable, WritersOk, Slots, Stored, NoDup, MetaOf, Live, Owned, Fresh, Apply,
      Elems;
    var f := SaveFreeList(s.m);
    SaveFreeListAllocs(s.disk, s.m, Taken(s));
    SaveFreeListFresh(s.m, Taken(s));
    AllocNCounts(s.m, |f.chain|);
  }

  /** The blocks in use after a commit. */
  lemma CommitTaken(s: Store, meta: nat)
    requires Inv(s) && Enabled(s, CommitHeader(meta))
    ensures var f, s', chain := SaveFreeList(s.m), Do(s, CommitHeader(meta)).s, MetaOf(s, meta).chain;
            && Elems(s.m.usedBlocks) <= Live(s.last)
            && Live(s.last) !! Owned(s.writers)
            && Taken(s) == Live(s.last) + Owned(s.writers)
            && Taken(s') == Owned(s.writers) + Elems(chain) + Elems(f.chain)
            && Elems(chain) <= Taken(s) && Elems(chain) !! Elems(s.m.usedBlocks)
  {
    hide SaveFreeList, SnapshotOnDisk, Reloadable, WritersOk, Slots, Stored, NoDup, MetaOf, Live, Owned, StreamBlocks,
      Fresh, Apply, Elems, CanLead;
    MetaBlocks(s, meta);
    SplitBlocks(s.writers);
    LiveParts(Do(s, CommitHeader(meta)).s.last);
  }

  lemma LiveParts(c: Snapshot)
    ensures Live(c) == Elems(c.meta.chain) + StreamBlocks(c.streams) + Elems(c.freeChain)
  {
  }

  /**
    `write_header` replaces the free list by the blocks read since the last commit. The blocks unaccounted for
    afterwards are those that were so before, the free blocks it had no use for, and the blocks of the last snapshot
    that were neither read nor belong to the stream that the new header leads to.
   */
  lemma CommitLosesExactly(s: Store, meta: nat, x: nat)
    requires Inv(s) && Enabled(s, CommitHeader(meta))
    ensures Unaccounted(Do(s, CommitHeader(meta)).s, x) <==>
              || Unaccounted(s, x)
              || x in LeftOver(s.m)
              || (x in Live(s.last) && x !in s.m.usedBlocks && x !in MetaOf(s, meta).chain)
  {
    hide Inv, Enabled, Do, SaveFreeList, Live, Owned, MetaOf, Taken, LeftOver, Fresh, AllocsOf;
    CommitAllocs(s, meta);
    CommitTaken(s, meta);
    var f, s' := SaveFreeList(s.m), Do(s, CommitHeader(meta)).s;
    InElems(s.m.usedBlocks, x);
    InElems(f.chain, x);
    InElems(MetaOf(s, meta).chain, x);
    hide Elems;
    if x in s.m.freeList || s.m.maxBlock <= x < f.m.maxBlock {
      AllocsCover(s.m, f.chain, f.m, x);
    } else if x < s.m.maxBlock {
      AllocsAvoid(s.m, f.chain, f.m, x);
    }
    if x in LeftOver(s.m) {
      FreeIsApart(f.m, Taken(s) + Elems(f.chain), x);
    } else if x in Taken(s) {
      TakenIsBelow(f.m, Taken(s) + Elems(f.chain), x);
      TakenIsBelow(s.m, Taken(s), x) by {
        TakenFresh(s);
      }
    }
  }

  lemma TakenFresh(s: Store)
    requires Inv(s)
    ensures Fresh(s.m, Taken(s))
  {
  }

  lemma InElems<T>(s: seq<T>, x: T)
    ensures x in Elems(s) <==> x in s
  {
  }

  lemma FreeIsApart(m: Manager, taken: set<nat>, x: nat)
    requires Fresh(m, taken) && x in m.freeList
    ensures x !in taken && x < m.maxBlock
  {
  }

  lemma TakenIsBelow(m: Manager, taken: set<nat>, x: nat)
    requires Fresh(m, taken) && x in taken
    ensures x !in m.freeList && x < m.maxBlock
  {
  }

  /** Allocations do not touch a block that is neither free nor new. */
  lemma AllocsAvoid(m: Manager, ids: seq<nat>, m': Manager, x: nat)
    requires AllocsOf(m, ids, m') && x < m.maxBlock && x !in m.freeList
    ensures x !in ids && x < m'.maxBlock && x !in m'.freeList
  {
    AllocNCounts(m, |ids|);
    forall i | 0 <= i < |ids|
      ensures ids[i] != x
    {
      AllocNCounts(m, i);
      assert ids[i] == Alloc(AllocN(m, i)).id;
    }
  }

  /**
    So, starting from a store where every block is accounted for, a commit keeps it so if and only if saving the
    freed blocks uses up the free list, and every block of the last snapshot was read or is one the new header
    leads to.
   */
  lemma CommitKeepsAccountsIff(s: Store, meta: nat)
    requires Inv(s) && Enabled(s, CommitHeader(meta)) && AllAccounted(s)
    ensures AllAccounted(Do(s, CommitHeader(meta)).s) <==> LosesNothing(s, meta)
  {
    hide Inv, Enabled, Do, Live, MetaOf, Taken, FreeListBlocks;
    var s' := Do(s, CommitHeader(meta)).s;
    forall x: nat
      ensures Unaccounted(s', x) <==>
                x in LeftOver(s.m) || (x in Live(s.last) && x !in s.m.usedBlocks && x !in MetaOf(s, meta).chain)
    {
      CommitLosesExactly(s, meta, x);
    }
    if |s.m.freeList| > FreeListBlocks(|s.m.usedBlocks|) {
      assert LeftOver(s.m)[0] in LeftOver(s.m);
      assert Unaccounted(s', LeftOver(s.m)[0]);
    } else if x :| x in Live(s.last) && x !in s.m.usedBlocks && x !in MetaOf(s, meta).chain {
      assert Unaccounted(s', x);
    } else {
      assert LeftOver(s.m) == [];
      assert forall x: nat :: !Unaccounted(s', x);
    }
  }

  ghost predicate LosesNothing(s: Store, meta: nat)
  {
    && |s.m.freeList| <= FreeListBlocks(|s.m.usedBlocks|)
    && forall x :: x in Live(s.last) ==> x in s.m.usedBlocks || x in MetaOf(s, meta).chain
  }

  lemma SplitBlocks(ws: map<nat, OpenStream>)
    ensures StreamBlocks(ClosedStreams(ws)) + Owned(StillOpen(ws)) == Owned(ws)
  {
    var closed, open := ClosedStreams(ws), StillOpen(ws);
    forall x | x in Owned(ws)
      ensures x in StreamBlocks(closed) + Owned(open)
    {
      var k :| k in ws && x in ws[k].chain;
      if ws[k].closed {
        assert k in closed && x in closed[k].chain;
      } else {
        assert k in open && x in open[k].chain;
      }
    }
    forall x | x in StreamBlocks(closed)
      ensures x in Owned(ws)
    {
      var k :| k in closed && x in closed[k].chain;
      assert k in ws && x in ws[k].chain;
    }
    forall x | x in Owned(open)
      ensures x in Owned(ws)
    {
      var k :| k in open && x in open[k].chain;
      assert k in ws && x in ws[k].chain;
    }
  }

  // ---------------------------------------------------------------- crashes

  /** Every block that the header counts is in its free list or needed by it. */
  ghost predicate Whole(c: Snapshot)
  {
    forall x: nat :: x < c.header.blockCount ==> x in c.freeIds || x in Live(c)
  }

  /**
    A crash at any point and the reopen after it leave every block accounted for exactly when the snapshot they go
    back to is whole. Which one that is `CrashInv` says.
   */
  lemma CrashKeepsAccountsIff(s: Store, op: Op, cut: nat)
    requires Inv(s) && Enabled(s, op) && cut <= |Do(s, op).log|
    ensures AllAccounted(CrashDuring(s, op, cut)) <==> Whole(CrashDuring(s, op, cut).last)
  {
    var s' := CrashDuring(s, op, cut);
    assert Owned(s'.writers) == {};
    hide Inv, Do, Enabled, CrashDuring, Whole;
    CrashInv(s, op, cut);
    WholeAccounts(s');
  }

  lemma WholeAccounts(s: Store)
    requires Owned(s.writers) == {} && s.m.freeList == s.last.freeIds && s.m.maxBlock == s.last.header.blockCount
    ensures AllAccounted(s) <==> Whole(s.last)
  {
    hide Live, Owned;
    assert Taken(s) == Live(s.last);
    if Whole(s.last) {
      assert forall x: nat :: !Unaccounted(s, x);
    } else {
      var x: nat :| x < s.last.header.blockCount && x !in s.last.freeIds && x !in Live(s.last);
      assert Unaccounted(s, x);
    }
  }

  /**
    A snapshot is whole exactly when the commit that made it lost nothing and no stream was left open over it: the
    blocks of such streams are counted by the header and belong to nobody after a crash.
   */
  lemma WholeIff(s: Store, meta: nat)
    requires Inv(s) && Enabled(s, CommitHeader(meta)) && AllAccounted(s)
    ensures Whole(Do(s, CommitHeader(meta)).s.last) <==>
              LosesNothing(s, meta) && forall k :: k in s.writers ==> s.writers[k].closed
  {
    var s' := Do(s, CommitHeader(meta)).s;
    assert s'.last.freeIds == s'.m.freeList && s'.last.header.blockCount == s'.m.maxBlock;
    assert s'.writers == StillOpen(s.writers);
    CommitKeepsAccountsIff(s, meta);
    CommitInv(s, meta);
    hide Do, LosesNothing, Live, Enabled, SaveFreeList;
    if k :| k in s.writers && !s.writers[k].closed {
      assert k in s'.writers;
      OwnBlock(s', k);
      var x := s'.writers[k].w.id;
      assert x in Owned(s'.writers);
      hide Inv, Owned;
      OwnedIsApart(s', x);
    } else {
      assert Owned(s'.writers) == {};
      hide Inv, Owned;
      WholeAccounts(s');
    }
  }

  lemma OwnedIsApart(s: Store, x: nat)
    requires Inv(s) && x in Owned(s.writers)
    ensures x < s.m.maxBlock && x !in s.m.freeList && x !in Live(s.last)
  {
    hide Live, Owned, SnapshotOnDisk, WritersOk, Reloadable, Slots;
  }

  // ---------------------------------------------------------------- lost for good

  /** Block `x` is out of use, and no reopen of the last snapshot brings it back. */
  ghost predicate Lost(s: Store, x: nat)
  {
    Unaccounted(s, x) && x < s.last.header.blockCount && x !in s.last.freeIds
  }

  /** Right after a commit every block unaccounted for is lost. */
  lemma CommitLost(s: Store, meta: nat, x: nat)
    requires Inv(s) && Enabled(s, CommitHeader(meta)) && Unaccounted(Do(s, CommitHeader(meta)).s, x)
    ensures Lost(Do(s, CommitHeader(meta)).s, x)
  {
  }

  lemma LostStep(s: Store, op: Op, x: nat)
    requires Inv(s) && Enabled(s, op) && Lost(s, x)
    ensures x !in Do(s, op).ids && Lost(Do(s, op).s, x)
  {
    hide Inv, AllocsOf, WriteData, Taken, SaveFreeList, MetaOf, Elems;
    var s' := Do(s, op).s;
    match op
    case Open(k) =>
      OpenAllocs(s.m);
      OpenTaken(s, k);
      AllocsAvoid(s.m, OpenWriter(s.m).ids, s'.m, x);
      InElems(OpenWriter(s.m).ids, x);
    case Write(k, data) =>
      var r := WriteData(s.m, s.writers[k].w, data);
      WriteAllocs(s.m, s.writers[k].w, data);
      WriteTaken(s, k, data);
      AllocsAvoid(s.m, r.ids, s'.m, x);
      InElems(r.ids, x);
    case Close(k) =>
      CloseTaken(s, k);
    case ReadBlock(_) =>
      ReadTaken(s, op.id);
    case CommitHeader(meta) =>
      var f := SaveFreeList(s.m);
      CommitLosesExactly(s, meta, x);
      CommitLost(s, meta, x);
      CommitAllocs(s, meta);
      AllocsAvoid(s.m, f.chain, f.m, x);
  }

  lemma ReadTaken(s: Store, id: nat)
    ensures Taken(Do(s, ReadBlock(id)).s) == Taken(s)
  {
  }

  lemma LostCrash(s: Store, op: Op, cut: nat, x: nat)
    requires Inv(s) && Enabled(s, op) && cut <= |Do(s, op).log| && Lost(s, x)
    ensures Lost(CrashDuring(s, op, cut), x)
  {
    var s' := CrashDuring(s, op, cut);
    assert Owned(s'.writers) == {};
    hide Inv, Do, Enabled, CrashDuring, Live;
    CrashInv(s, op, cut);
    LostStep(s, op, x);
  }

  lemma {:induction false} LostForever(s: Store, es: seq<Event>, x: nat)
    requires Inv(s) && IsRun(s, es) && Lost(s, x)
    ensures Inv(Final(s, es)) && Lost(Final(s, es), x)
    decreases |es|
  {
    if es != [] {
      var e := es[0];
      EventInv(s, e);
      hide Inv, Lost, Do, CrashDuring;
      match e {
        case Done(op) => LostStep(s, op, x);
        case Crashed(op, cut) => LostCrash(s, op, cut, x);
      }
      LostForever(After(s, e), es[1..], x);
    }
  }

  /** A lost block stays lost: no operation of any later run, crashes and reopens included, takes it again. */
  lemma {:induction false} LostIsNeverHandedOut(s: Store, es: seq<Event>, op: Op, x: nat)
    requires Inv(s) && Lost(s, x) && IsRun(s, es) && Enabled(Final(s, es), op)
    ensures x !in Do(Final(s, es), op).ids
  {
    hide Inv, Lost, Do, IsRun, Final, Enabled;
    LostForever(s, es, x);
    LostStep(Final(s, es), op, x);
  }
}

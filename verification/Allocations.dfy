/** Consecutive allocations: which blocks they hand out, in what order, and how many a saved stream needs. */
module Allocations {
  import opened Bytes
  import opened Collections
  import opened MetaStream
  import opened FreeList

  /** The manager after `n` allocations. */
  function AllocN(m: Manager, n: nat): Manager
    decreases n
  {
    if n == 0 then m else AllocN(Alloc(m).m, n - 1)
  }

  function Max0(x: int): nat
  {
    if x > 0 then x else 0
  }

  lemma {:induction false} AllocNCounts(m: Manager, n: nat)
    ensures var r := AllocN(m, n);
            r == m.(freeList := m.freeList[..Max0(|m.freeList| - n)], maxBlock := m.maxBlock + Max0(n - |m.freeList|))
    decreases n
  {
    if n == 0 {
      assert m.freeList[..|m.freeList|] == m.freeList;
    } else {
      AllocNCounts(Alloc(m).m, n - 1);
    }
  }

  lemma {:induction false} AllocNAdd(m: Manager, a: nat, b: nat)
    ensures AllocN(AllocN(m, a), b) == AllocN(m, a + b)
    decreases a
  {
    if a > 0 {
      AllocNAdd(Alloc(m).m, a - 1, b);
    }
  }

  lemma {:induction false} WriteDataAllocs(m: Manager, w: Writer, data: seq<Byte>)
    requires WriterShape(w)
    ensures var r := WriteData(m, w, data);
            r.m == AllocN(m, |r.ids|) && forall i :: 0 <= i < |r.ids| ==> r.ids[i] == Alloc(AllocN(m, i)).id
    decreases |data|, w.offset
  {
    if w.offset + |data| > FB_SIZE {
      var a := Alloc(m);
      var w1 := Writer(a.id, FullBuffer(w, data, a.id), LINK);
      var rest := WriteData(a.m, w1, data[FB_SIZE - w.offset..]);
      WriteDataAllocs(a.m, w1, data[FB_SIZE - w.offset..]);
      var r := WriteData(m, w, data);
      assert r.ids == [a.id] + rest.ids && r.m == rest.m;
      hide WriteData, Alloc;
      forall i | 0 <= i < |r.ids|
        ensures r.ids[i] == Alloc(AllocN(m, i)).id
      {
        if i > 0 {
          assert r.ids[i] == rest.ids[i - 1];
          assert AllocN(m, i) == AllocN(a.m, i - 1);
        }
      }
    }
  }

  /** How many blocks it takes to save `n` freed ids. */
  function FreeListBlocks(n: nat): nat
  {
    if n == 0 then 0 else (8 + 8 * n + PAYLOAD - 1) / PAYLOAD
  }

  /** `ids` are the blocks that so many allocations from `m` hand out, in order, and `m'` is what they leave. */
  ghost predicate AllocsOf(m: Manager, ids: seq<nat>, m': Manager)
  {
    && m' == AllocN(m, |ids|)
    && forall i :: 0 <= i < |ids| ==> ids[i] == Alloc(AllocN(m, i)).id
  }

  lemma AllocsConcat(m: Manager, a: seq<nat>, m1: Manager, b: seq<nat>, m2: Manager)
    requires AllocsOf(m, a, m1) && AllocsOf(m1, b, m2)
    ensures AllocsOf(m, a + b, m2)
  {
    AllocNAdd(m, |a|, |b|);
    forall i | 0 <= i < |a + b|
      ensures (a + b)[i] == Alloc(AllocN(m, i)).id
    {
      if i >= |a| {
        AllocNAdd(m, |a|, i - |a|);
        assert b[i - |a|] == Alloc(AllocN(m1, i - |a|)).id;
      }
    }
  }

  lemma {:induction false} WriteChunksAllocs(m: Manager, w: Writer, chunks: seq<seq<Byte>>)
    requires WriterShape(w)
    ensures var r := WriteChunks(m, w, chunks); AllocsOf(m, r.ids, r.m)
    decreases |chunks|
  {
    if chunks != [] {
      var r1 := WriteData(m, w, chunks[0]);
      var r2 := WriteChunks(r1.m, r1.w, chunks[1..]);
      WriteDataAllocs(m, w, chunks[0]);
      WriteChunksAllocs(r1.m, r1.w, chunks[1..]);
      AllocsConcat(m, r1.ids, r1.m, r2.ids, r2.m);
    }
  }

  /** A stored stream occupies as few blocks as its length allows. */
  lemma StoredLength(blocks: map<nat, seq<Byte>>, chain: seq<nat>, bytes: seq<Byte>)
    requires Stored(blocks, chain, bytes) && bytes != []
    ensures |chain| == (|bytes| + PAYLOAD - 1) / PAYLOAD
  {
  }

  lemma OpenAllocs(m: Manager)
    ensures var r := OpenWriter(m); AllocsOf(m, r.ids, r.m)
  {
    var a := Alloc(m);
    assert AllocN(m, 1) == AllocN(a.m, 0);
  }

  lemma {:induction false} WriteAllocs(m: Manager, w: Writer, data: seq<Byte>)
    requires WriterShape(w)
    ensures var r := WriteData(m, w, data); AllocsOf(m, r.ids, r.m)
  {
    hide WriteData;
    WriteDataAllocs(m, w, data);
  }

  /** Saving the free list takes exactly the blocks its length calls for, in the allocator's order. */
  lemma SaveFreeListAllocs(d: Disk, m: Manager, taken: set<nat>)
    requires Fresh(m, taken) && SaveFreeList(m).m.maxBlock <= MAX_BLOCKS
    ensures var f := SaveFreeList(m);
            AllocsOf(m, f.chain, f.m) && |f.chain| == FreeListBlocks(|m.usedBlocks|)
  {
    hide AllocsOf, WriteChunks, FreeListChunks, FreeListBytes, OpenWriter, Stored, Fresh, Apply;
    if m.usedBlocks == [] {
      NoAllocs(m);
    } else {
      var o := OpenWriter(m);
      var r := WriteChunks(o.m, o.w, FreeListChunks(m.usedBlocks));
      OpenAllocs(m);
      OpenIds(m);
      WriteChunksAllocs(o.m, o.w, FreeListChunks(m.usedBlocks));
      AllocsConcat(m, [o.w.id], o.m, r.ids, r.m);
      SaveFreeListStores(d, m, taken);
      FreeListLayout(m.usedBlocks, 0);
      StoredLength(Apply(d, SaveFreeList(m).log).blocks, SaveFreeList(m).chain, FreeListBytes(m.usedBlocks));
    }
  }

  lemma NoAllocs(m: Manager)
    ensures AllocsOf(m, [], m)
  {
  }

  lemma OpenIds(m: Manager)
    ensures OpenWriter(m).ids == [OpenWriter(m).w.id]
  {
  }

  /** No number of allocations from `m` hands out a block in `live`. */
  ghost predicate NeverHandsOut(m: Manager, live: set<nat>)
  {
    forall n: nat :: Alloc(AllocN(m, n)).id !in live
  }

  lemma {:induction false} FreshNeverHandsOut(m: Manager, live: set<nat>, n: nat)
    requires Fresh(m, live)
    ensures Alloc(AllocN(m, n)).id !in live
    decreases n
  {
    AllocFresh(m, live);
    if n > 0 {
      assert Fresh(Alloc(m).m, live);
      FreshNeverHandsOut(Alloc(m).m, live, n - 1);
    }
  }

  /** The allocator hands out every block of its free list sooner or later. */
  lemma FreeIsHandedOut(m: Manager, x: nat, xs: set<nat>)
    requires x in m.freeList && x in xs
    ensures !NeverHandsOut(m, xs)
  {
    var i :| 0 <= i < |m.freeList| && m.freeList[i] == x;
    AllocNCounts(m, |m.freeList| - 1 - i);
    assert Alloc(AllocN(m, |m.freeList| - 1 - i)).id == x;
  }

  /** The allocator hands out its free list and everything from the high-water mark on, and nothing else. */
  lemma HandsOutIff(m: Manager, xs: seq<nat>)
    ensures NeverHandsOut(m, Elems(xs)) <==> forall x :: x in xs ==> x < m.maxBlock && x !in m.freeList
  {
    if x :| x in xs && x in m.freeList {
      FreeIsHandedOut(m, x, Elems(xs));
    } else if x :| x in xs && x >= m.maxBlock {
      AllocNCounts(m, |m.freeList| + (x - m.maxBlock));
      assert Alloc(AllocN(m, |m.freeList| + (x - m.maxBlock))).id in Elems(xs);
    } else {
      forall n: nat
        ensures Alloc(AllocN(m, n)).id !in Elems(xs)
      {
        AllocNCounts(m, n);
      }
    }
  }

  /** With at most 1021 freed blocks, the most the code can save, one block in the free list is enough. */
  lemma OneBlockSuffices(n: nat)
    ensures FreeListBlocks(n) <= 1 <==> n <= 1021
    ensures FreeListBlocks(n) == 0 <==> n == 0
  {
  }
}

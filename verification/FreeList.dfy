/**
  Persisting the free list: what `write_header` writes ahead of the header, what a reopen reads back, and how much of
  it the writer's loop as written can save.
 */
module FreeList {
  import opened Bytes
  import opened Collections
  import opened MetaStream

  function IdChunks(ids: seq<nat>): (cs: seq<seq<Byte>>)
    ensures |cs| == |ids|
  {
    if ids == [] then [] else [Le(ids[0], 8)] + IdChunks(ids[1..])
  }

  /** The writes that save a list of freed blocks: its length, then each id. */
  function FreeListChunks(ids: seq<nat>): seq<seq<Byte>>
  {
    [Le(|ids|, 8)] + IdChunks(ids)
  }

  function FreeListBytes(ids: seq<nat>): seq<Byte>
  {
    Le(|ids|, 8) + Concat(IdChunks(ids))
  }

  lemma {:induction false} IdChunkAt(ids: seq<nat>, i: nat)
    requires i <= |ids|
    ensures |Concat(IdChunks(ids))| == 8 * |ids|
    ensures i < |ids| ==> Concat(IdChunks(ids))[8 * i..8 * i + 8] == Le(ids[i], 8)
    decreases |ids|
  {
    if ids != [] {
      var cs := IdChunks(ids);
      assert cs[1..] == IdChunks(ids[1..]);
      var rest := Concat(cs[1..]);
      assert Concat(cs) == Le(ids[0], 8) + rest;
      IdChunkAt(ids[1..], if i == 0 then 0 else i - 1);
      hide Concat, IdChunks, Le;
      if i < |ids| {
        SliceAfter(Le(ids[0], 8), rest, 8 * i);
      }
    }
  }

  lemma SliceAfter<T>(a: seq<T>, b: seq<T>, i: nat)
    requires |a| == 8 && i + 8 <= |a + b|
    ensures i == 0 ==> (a + b)[i..i + 8] == a
    ensures i >= 8 ==> (a + b)[i..i + 8] == b[i - 8..i]
  {
  }

  /** The bytes of a saved free list, by position. */
  lemma {:induction false} FreeListLayout(ids: seq<nat>, i: nat)
    requires i <= |ids|
    ensures Concat(FreeListChunks(ids)) == FreeListBytes(ids)
    ensures |FreeListBytes(ids)| == 8 + 8 * |ids|
    ensures FreeListBytes(ids)[..8] == Le(|ids|, 8)
    ensures i < |ids| ==> FreeListBytes(ids)[8 + 8 * i..16 + 8 * i] == Le(ids[i], 8)
  {
    IdChunkAt(ids, i);
    var cs := FreeListChunks(ids);
    assert cs[1..] == IdChunks(ids);
    var rest := Concat(IdChunks(ids));
    hide IdChunks, Le;
    SliceAfter(Le(|ids|, 8), rest, 0);
    assert FreeListBytes(ids)[..8] == FreeListBytes(ids)[0..8];
    if i < |ids| {
      SliceAfter(Le(|ids|, 8), rest, 8 + 8 * i);
    }
  }

  // ---------------------------------------------------------------- saving

  /** The free-list part of `write_header`, with the intended writer loop. */
  function SaveFreeList(m: Manager): Saved
  {
    if m.usedBlocks == [] then
      Saved(m, INVALID_BLOCK, [], [])
    else
      SaveStream(m, FreeListChunks(m.usedBlocks))
  }

  /** Saving the free list takes only fresh blocks and puts the list on disk in them. */
  lemma {:induction false} SaveFreeListStores(d: Disk, m: Manager, taken: set<nat>)
    requires Fresh(m, taken) && m.usedBlocks != [] && SaveFreeList(m).m.maxBlock <= MAX_BLOCKS
    ensures var s := SaveFreeList(m);
            && s.chain != [] && s.id == s.chain[0]
            && Stored(Apply(d, s.log).blocks, s.chain, FreeListBytes(m.usedBlocks))
  {
    hide Fresh, FreeListChunks, FreeListBytes, WriteChunks, Stored;
    FreeListLayout(m.usedBlocks, 0);
    StreamStored(d, m, FreeListChunks(m.usedBlocks), taken);
  }

  /** Saving the free list changes nothing in memory but the allocator, and no block that was taken. */
  lemma SaveFreeListFresh(m: Manager, taken: set<nat>)
    requires Fresh(m, taken)
    ensures var s := SaveFreeList(m);
            && Fresh(s.m, taken + Elems(s.chain))
            && Elems(s.chain) !! taken
            && WritesOnly(s.log, Elems(s.chain))
            && s.m == m.(freeList := s.m.freeList, maxBlock := s.m.maxBlock)
            && m.maxBlock <= s.m.maxBlock
  {
    var s := SaveFreeList(m);
    if m.usedBlocks == [] {
      assert taken + Elems(s.chain) == taken;
    } else {
      var o := OpenWriter(m);
      var chunks := FreeListChunks(m.usedBlocks);
      var r := WriteChunks(o.m, o.w, chunks);
      AllocFresh(m, taken);
      WriteChunksFresh(o.m, o.w, chunks, taken + {o.w.id});
      WriteChunksWrites(o.m, o.w, chunks);
      ElemsConcat([o.w.id], r.ids);
      assert Elems([o.w.id]) == {o.w.id};
      assert taken + {o.w.id} + Elems(r.ids) == taken + Elems(s.chain);
      hide Fresh, Elems, WriteChunks, FreeListChunks;
      assert WritesOnly(FlushLog(r.w), {r.w.id});
      WritesOnlyConcat(r.log, FlushLog(r.w), {o.w.id} + Elems(r.ids), {r.w.id}, Elems(s.chain));
    }
  }

  /** A writer writes only its own block and the ones it takes. */
  lemma {:induction false} WriteChunksWrites(m: Manager, w: Writer, chunks: seq<seq<Byte>>)
    requires WriterShape(w)
    ensures var r := WriteChunks(m, w, chunks); WritesOnly(r.log, {w.id} + Elems(r.ids))
    decreases |chunks|
  {
    if chunks != [] {
      var r1 := WriteData(m, w, chunks[0]);
      var r2 := WriteChunks(r1.m, r1.w, chunks[1..]);
      WriteDataWrites(m, w, chunks[0]);
      WriteDataId(m, w, chunks[0]);
      WriteChunksWrites(r1.m, r1.w, chunks[1..]);
      ElemsConcat(r1.ids, r2.ids);
      hide Elems, WritesOnly;
      WritesOnlyConcat(r1.log, r2.log, {w.id} + Elems(r1.ids), {r1.w.id} + Elems(r2.ids),
                       {w.id} + Elems(r1.ids + r2.ids));
    }
  }

  lemma {:induction false} WriteDataWrites(m: Manager, w: Writer, data: seq<Byte>)
    requires WriterShape(w)
    ensures var r := WriteData(m, w, data); WritesOnly(r.log, {w.id} + Elems(r.ids))
    decreases |data|, w.offset
  {
    if w.offset + |data| > FB_SIZE {
      var a := Alloc(m);
      WriteDataWrites(a.m, Writer(a.id, FullBuffer(w, data, a.id), LINK), data[FB_SIZE - w.offset..]);
    }
  }

  // ---------------------------------------------------------------- reloading

  datatype Ids = Ids(ids: seq<nat>, r: Reader, loads: seq<nat>)

  /** The loop of `initialize_manager`: `n` ids, eight bytes each. */
  function ReadIds(d: Disk, r: Reader, n: nat): (res: Ids)
    requires ReaderShape(r)
    ensures |res.ids| == n
    decreases n
  {
    if n == 0 then Ids([], r, [])
    else
      var a := ReadData(d, r, 8);
      var b := ReadIds(d, a.r, n - 1);
      Ids([FromLe(a.bytes)] + b.ids, b.r, a.loads + b.loads)
  }

  /** The free-list part of `initialize_manager`. */
  function LoadFreeList(d: Disk, id: nat): Ids
  {
    var r := Load(d, ZeroBuffer(), id);
    var c := ReadData(d, r, 8);
    var b := ReadIds(d, c.r, FromLe(c.bytes));
    Ids(b.ids, b.r, [id] + c.loads + b.loads)
  }

  ghost predicate AllU64(ids: seq<nat>)
  {
    forall j :: 0 <= j < |ids| ==> ids[j] < U64_LIMIT
  }

  /** What reading the ids from number `i` on must return, if it starts in block `k` and ends in block `k'`. */
  ghost predicate IdsSlice(d: Disk, res: Ids, chain: seq<nat>, ids: seq<nat>, i: nat, k: nat, k': nat)
  {
    && i <= |ids| && k <= k' < |chain|
    && res.ids == ids[i..|ids|]
    && res.loads == chain[k + 1..k' + 1]
    && ReaderAt(d, res.r, chain, FreeListBytes(ids), k', 8 + 8 * |ids|)
  }

  lemma ReadOneId(d: Disk, r: Reader, chain: seq<nat>, ids: seq<nat>, i: nat, k: nat) returns (k1: nat)
    requires i < |ids| && AllU64(ids)
    requires Stored(d.blocks, chain, FreeListBytes(ids))
    requires ReaderAt(d, r, chain, FreeListBytes(ids), k, 8 + 8 * i)
    ensures k <= k1 < |chain|
    ensures var a := ReadData(d, r, 8);
            && FromLe(a.bytes) == ids[i]
            && a.loads == chain[k + 1..k1 + 1]
            && ReaderAt(d, a.r, chain, FreeListBytes(ids), k1, 16 + 8 * i)
  {
    FreeListLayout(ids, i);
    U64RoundTrip(ids[i]);
    hide Stored, ReaderAt, ReadData, FreeListBytes;
    k1 := ReadDataCorrect(d, r, 8, chain, FreeListBytes(ids), k, 8 + 8 * i);
  }

  lemma IdsSliceCons(d: Disk, id: nat, loads: seq<nat>, b: Ids, chain: seq<nat>, ids: seq<nat>,
                     i: nat, k: nat, k1: nat, k': nat)
    requires i < |ids| && k <= k1 && IdsSlice(d, b, chain, ids, i + 1, k1, k')
    requires id == ids[i] && loads == chain[k + 1..k1 + 1]
    ensures IdsSlice(d, Ids([id] + b.ids, b.r, loads + b.loads), chain, ids, i, k, k')
  {
    hide ReaderAt, FreeListBytes;
    SliceCons(ids, i, |ids|);
    SliceConcat(chain, k + 1, k1 + 1, k' + 1);
  }

  lemma {:induction false} ReadIdsCorrect(d: Disk, r: Reader, chain: seq<nat>, ids: seq<nat>, i: nat, k: nat)
    returns (k': nat)
    requires i <= |ids| && AllU64(ids)
    requires Stored(d.blocks, chain, FreeListBytes(ids))
    requires ReaderAt(d, r, chain, FreeListBytes(ids), k, 8 + 8 * i)
    ensures IdsSlice(d, ReadIds(d, r, |ids| - i), chain, ids, i, k, k')
    decreases |ids| - i
  {
    ReaderBounds(d, r, 0, chain, FreeListBytes(ids), k, 8 + 8 * i);
    hide Stored, ReaderAt, FreeListBytes, ReadData, FromLe, AllU64;
    if i == |ids| {
      k' := k;
      assert ids[i..i] == [] && chain[k + 1..k + 1] == [];
    } else {
      hide IdsSlice;
      var k1 := ReadOneId(d, r, chain, ids, i, k);
      var a := ReadData(d, r, 8);
      k' := ReadIdsCorrect(d, a.r, chain, ids, i + 1, k1);
      IdsSliceCons(d, FromLe(a.bytes), a.loads, ReadIds(d, a.r, |ids| - (i + 1)), chain, ids, i, k, k1, k');
    }
  }

  /** Reading a saved free list back yields the same ids in the same order, and loads its chain once. */
  lemma LoadFreeListCorrect(d: Disk, chain: seq<nat>, ids: seq<nat>)
    requires AllU64(ids) && |ids| < U64_LIMIT
    requires Stored(d.blocks, chain, FreeListBytes(ids)) && chain != []
    ensures var res := LoadFreeList(d, chain[0]);
            res.ids == ids && res.loads == chain
  {
    hide Stored, ReaderAt, Load, ReadData, ReadIds, FreeListBytes, Le, FromLe;
    var bytes := FreeListBytes(ids);
    FreeListLayout(ids, 0);
    var r := Load(d, ZeroBuffer(), chain[0]);
    LoadAt(d, ZeroBuffer(), chain, bytes, 0);
    var c := ReadData(d, r, 8);
    var k := ReadDataCorrect(d, r, 8, chain, bytes, 0, 0);
    assert c.bytes == bytes[..8];
    U64RoundTrip(|ids|);
    var b := ReadIds(d, c.r, |ids|);
    var k' := ReadIdsCorrect(d, c.r, chain, ids, 0, k);
    assert b.loads == chain[k + 1..k' + 1] && c.loads == chain[1..k + 1];
    ReaderBounds(d, b.r, 0, chain, bytes, k', |bytes|);
    WholeChain(chain, k + 1, c.loads, b.loads);
    assert ids[0..|ids|] == ids;
  }

  lemma WholeChain(chain: seq<nat>, k: nat, a: seq<nat>, b: seq<nat>)
    requires 1 <= k <= |chain| && a == chain[1..k] && b == chain[k..|chain|]
    ensures [chain[0]] + a + b == chain
  {
  }

  // ---------------------------------------------------------------- as written

  /** The free-list part of `write_header` with the writer's loop as written; `None` if it never returns. */
  ghost function SaveFreeListAsWritten(m: Manager): Option<Saved>
  {
    if m.usedBlocks == [] then
      Some(Saved(m, INVALID_BLOCK, [], []))
    else
      AsWrittenStream(m, FreeListChunks(m.usedBlocks))
  }

  /**
    With the writer's loop as written the free list is saved as intended if at most 1021 blocks were freed; with
    more, saving it never returns.
   */
  lemma AsWrittenSavesIff(m: Manager)
    ensures SaveFreeListAsWritten(m) == if |m.usedBlocks| <= 1021 then Some(SaveFreeList(m)) else None
  {
    hide FreeListChunks, FreeListBytes, AsWrittenStream, SaveStream;
    if m.usedBlocks != [] {
      AsWrittenStreamIff(m, FreeListChunks(m.usedBlocks));
      FreeListLayout(m.usedBlocks, 0);
    }
  }
}

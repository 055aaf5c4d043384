/**
  Block allocation and the chained meta-block byte streams of the single-file store.

  A stream is written by a `Writer` into blocks whose first eight bytes name the next block, and read back by a
  `Reader` that follows those names. Disk effects are returned as a log of writes in program order, so that a
  crash can be taken at any point of an operation.
 */
module MetaStream {
  import opened Bytes
  import opened Collections

  const BLOCK_SIZE: nat := 8192
  const CHECKSUM_SIZE: nat := 8
  /** Bytes of a block that a `FileBuffer` hands to its user. */
  const FB_SIZE: nat := BLOCK_SIZE - CHECKSUM_SIZE
  /** `sizeof(block_id_t)`: the link to the next block. */
  const LINK: nat := 8
  const PAYLOAD: nat := FB_SIZE - LINK
  const INVALID_BLOCK: nat := U64_LIMIT - 1
  /** Ids below this bound keep `BLOCK_START + id * BLOCK_SIZE` within 64 bits. */
  const MAX_BLOCKS: nat := U64_LIMIT / BLOCK_SIZE - 2

  /** The fields of `SingleFileExtentManager` that the store's logic reads and writes. */
  datatype Manager = Manager(freeList: seq<nat>, usedBlocks: seq<nat>, maxBlock: nat,
                             metaBlock: nat, iteration: nat, active: nat)

  datatype Header = Header(iteration: nat, metaBlock: nat, freeListId: nat, blockCount: nat)

  datatype Disk = Disk(h1: Header, h2: Header, blocks: map<nat, seq<Byte>>)

  datatype DiskWrite = BlockWrite(id: nat, buf: seq<Byte>) | HeaderWrite(slot: nat, header: Header)

  function ApplyOne(d: Disk, e: DiskWrite): Disk
  {
    match e
    case BlockWrite(id, buf) => d.(blocks := d.blocks[id := buf])
    case HeaderWrite(slot, h) => if slot == 0 then d.(h1 := h) else d.(h2 := h)
  }

  function Apply(d: Disk, log: seq<DiskWrite>): Disk
    decreases |log|
  {
    if log == [] then d else Apply(ApplyOne(d, log[0]), log[1..])
  }

  lemma {:induction false} ApplySingle(d: Disk, e: DiskWrite)
    ensures Apply(d, [e]) == ApplyOne(d, e)
  {
    assert [e][1..] == [];
  }

  lemma {:induction false} ApplyConcat(d: Disk, a: seq<DiskWrite>, b: seq<DiskWrite>)
    ensures Apply(d, a + b) == Apply(Apply(d, a), b)
    decreases |a|
  {
    if a == [] {
      assert a + b == b;
    } else {
      assert (a + b)[1..] == a[1..] + b;
      ApplyConcat(ApplyOne(d, a[0]), a[1..], b);
    }
  }

  // ---------------------------------------------------------------- allocation

  datatype Allocated = Allocated(id: nat, m: Manager)

  /** `get_free_block_id`: pop the free list, or take the block at the high-water mark. */
  function Alloc(m: Manager): Allocated
  {
    if |m.freeList| > 0 then
      Allocated(m.freeList[|m.freeList| - 1], m.(freeList := m.freeList[..|m.freeList| - 1]))
    else
      Allocated(m.maxBlock, m.(maxBlock := m.maxBlock + 1))
  }

  /** Nothing the manager can hand out is in `taken`, and it cannot hand out one id twice. */
  ghost predicate Fresh(m: Manager, taken: set<nat>)
  {
    && NoDup(m.freeList)
    && (forall i :: 0 <= i < |m.freeList| ==> m.freeList[i] < m.maxBlock && m.freeList[i] !in taken)
    && (forall x :: x in taken ==> x < m.maxBlock)
  }

  lemma AllocFresh(m: Manager, taken: set<nat>)
    requires Fresh(m, taken)
    ensures var a := Alloc(m);
            && a.id !in taken
            && a.id < a.m.maxBlock
            && Fresh(a.m, taken + {a.id})
            && m.maxBlock <= a.m.maxBlock
            && a.m == m.(freeList := a.m.freeList, maxBlock := a.m.maxBlock)
  {
  }

  // ---------------------------------------------------------------- writer

  datatype Writer = Writer(id: nat, buf: seq<Byte>, offset: nat)

  predicate WriterShape(w: Writer)
  {
    |w.buf| == FB_SIZE && LINK <= w.offset <= FB_SIZE
  }

  /** Result of a writer operation: the manager and writer after it, the ids it took, and its disk writes. */
  datatype Written = Written(m: Manager, w: Writer, ids: seq<nat>, log: seq<DiskWrite>)

  function ZeroBuffer(): (b: seq<Byte>)
    ensures |b| == FB_SIZE
  {
    seq(FB_SIZE, _ => 0)
  }

  /** `MetaBlockWriter_init`. */
  function OpenWriter(m: Manager): (r: Written)
    ensures WriterShape(r.w)
  {
    var a := Alloc(m);
    Written(a.m, Writer(a.id, ZeroBuffer(), LINK), [a.id], [])
  }

  /** The current block, filled up with the first bytes of `data` and linked to block `next`. */
  function FullBuffer(w: Writer, data: seq<Byte>, next: nat): (b: seq<Byte>)
    requires WriterShape(w) && |data| >= FB_SIZE - w.offset
    ensures |b| == FB_SIZE
  {
    Le(next, LINK) + w.buf[LINK..w.offset] + data[..FB_SIZE - w.offset]
  }

  /** The last step of a write: `data` fits in the current block. */
  function PutInBlock(w: Writer, data: seq<Byte>): (r: Writer)
    requires WriterShape(w) && w.offset + |data| <= FB_SIZE
    ensures WriterShape(r)
  {
    Writer(w.id, w.buf[..w.offset] + data + w.buf[w.offset + |data|..], w.offset + |data|)
  }

  /**
    `metaBlockWriter_write_data` with its intended loop, in which the offset is reloaded after a block is flushed.
   */
  function WriteData(m: Manager, w: Writer, data: seq<Byte>): (r: Written)
    requires WriterShape(w)
    ensures WriterShape(r.w)
    decreases |data|, w.offset
  {
    if w.offset + |data| > FB_SIZE then
      var a := Alloc(m);
      var full := FullBuffer(w, data, a.id);
      var rest := WriteData(a.m, Writer(a.id, full, LINK), data[FB_SIZE - w.offset..]);
      rest.(ids := [a.id] + rest.ids, log := [BlockWrite(w.id, full)] + rest.log)
    else
      Written(m, PutInBlock(w, data), [], [])
  }

  /** `metaBlockWriter_flush`: nothing is written when the block holds no payload. */
  function FlushLog(w: Writer): seq<DiskWrite>
  {
    if w.offset > LINK then [BlockWrite(w.id, w.buf)] else []
  }

  function Flush(w: Writer): Writer
  {
    if w.offset > LINK then w.(offset := LINK) else w
  }

  // ---------------------------------------------------------------- what is on disk

  ghost predicate IsBlock(blocks: map<nat, seq<Byte>>, id: nat)
  {
    id in blocks && |blocks[id]| == FB_SIZE
  }

  /** Block `id` is full, carries `payload` and is linked to `next`. */
  ghost predicate FullBlock(blocks: map<nat, seq<Byte>>, id: nat, next: nat, payload: seq<Byte>)
  {
    IsBlock(blocks, id) && blocks[id][..LINK] == Le(next, LINK) && blocks[id][LINK..] == payload
  }

  /** All blocks of `chain` but the last are on disk, full, linked, and carry `bytes` in order. */
  ghost predicate FullPrefix(blocks: map<nat, seq<Byte>>, chain: seq<nat>, bytes: seq<Byte>)
  {
    && |chain| >= 1
    && NoDup(chain)
    && (forall k :: 0 <= k < |chain| ==> chain[k] < MAX_BLOCKS)
    && (|chain| - 1) * PAYLOAD <= |bytes| <= |chain| * PAYLOAD
    && (forall k :: 0 <= k < |chain| - 1 ==> LinkedBlock(blocks, chain, bytes, k))
  }

  /** Block `k` of the chain carries its slice of the stream and is linked to block `k + 1`. */
  ghost predicate LinkedBlock(blocks: map<nat, seq<Byte>>, chain: seq<nat>, bytes: seq<Byte>, k: nat)
    requires k + 1 < |chain| && (k + 1) * PAYLOAD <= |bytes|
  {
    FullBlock(blocks, chain[k], chain[k + 1], bytes[k * PAYLOAD..(k + 1) * PAYLOAD])
  }

  /** `w` has been given `bytes` so far and has spread them over `chain`. */
  ghost predicate Holds(blocks: map<nat, seq<Byte>>, w: Writer, chain: seq<nat>, bytes: seq<Byte>)
  {
    && WriterShape(w)
    && FullPrefix(blocks, chain, bytes)
    && w.id == chain[|chain| - 1]
    && w.offset == LINK + |bytes| - (|chain| - 1) * PAYLOAD
    && w.buf[LINK..w.offset] == bytes[(|chain| - 1) * PAYLOAD..]
  }

  /** The last block has payload, unless nothing was written at all. */
  ghost predicate Settled(chain: seq<nat>, bytes: seq<Byte>)
  {
    |chain| > 1 ==> |bytes| > (|chain| - 1) * PAYLOAD
  }

  /** The whole stream `bytes` is on disk in the blocks of `chain`. */
  ghost predicate Stored(blocks: map<nat, seq<Byte>>, chain: seq<nat>, bytes: seq<Byte>)
  {
    && FullPrefix(blocks, chain, bytes)
    && Settled(chain, bytes)
    && (bytes != [] ==>
          var base := (|chain| - 1) * PAYLOAD;
          IsBlock(blocks, chain[|chain| - 1]) &&
          blocks[chain[|chain| - 1]][LINK..LINK + |bytes| - base] == bytes[base..])
  }

  ghost predicate SameOn(a: map<nat, seq<Byte>>, b: map<nat, seq<Byte>>, ids: set<nat>)
  {
    forall x :: x in ids ==> (x in a <==> x in b) && (x in a ==> a[x] == b[x])
  }

  lemma StoredFrame(a: map<nat, seq<Byte>>, b: map<nat, seq<Byte>>, chain: seq<nat>, bytes: seq<Byte>)
    requires Stored(a, chain, bytes) && SameOn(a, b, Elems(chain))
    ensures Stored(b, chain, bytes)
  {
    forall k | 0 <= k < |chain| - 1
      ensures LinkedBlock(b, chain, bytes, k)
    {
      assert chain[k] in Elems(chain);
      assert LinkedBlock(a, chain, bytes, k);
    }
    assert chain[|chain| - 1] in Elems(chain);
  }

  lemma HoldsFrame(a: map<nat, seq<Byte>>, b: map<nat, seq<Byte>>, w: Writer, chain: seq<nat>, bytes: seq<Byte>)
    requires Holds(a, w, chain, bytes) && SameOn(a, b, Elems(chain))
    ensures Holds(b, w, chain, bytes)
  {
    forall k | 0 <= k < |chain| - 1
      ensures LinkedBlock(b, chain, bytes, k)
    {
      assert chain[k] in Elems(chain);
      assert LinkedBlock(a, chain, bytes, k);
    }
  }

  // ---------------------------------------------------------------- writing is appending

  /** Every entry of `log` is a block write to an id in `ids`. */
  ghost predicate WritesOnly(log: seq<DiskWrite>, ids: set<nat>)
  {
    forall i :: 0 <= i < |log| ==> log[i].BlockWrite? && log[i].id in ids
  }

  lemma WritesOnlyConcat(a: seq<DiskWrite>, b: seq<DiskWrite>, ids: set<nat>, ids': set<nat>, all: set<nat>)
    requires WritesOnly(a, ids) && WritesOnly(b, ids') && ids + ids' <= all
    ensures WritesOnly(a + b, all)
  {
  }

  lemma {:induction false} WritesOnlyFrame(d: Disk, log: seq<DiskWrite>, ids: set<nat>, other: set<nat>)
    requires WritesOnly(log, ids) && ids !! other
    ensures var d' := Apply(d, log);
            d'.h1 == d.h1 && d'.h2 == d.h2 && SameOn(d.blocks, d'.blocks, other)
    decreases |log|
  {
    if log != [] {
      assert log[0].id in ids;
      WritesOnlyFrame(ApplyOne(d, log[0]), log[1..], ids, other);
    }
  }

  lemma PutInBlockHolds(blocks: map<nat, seq<Byte>>, w: Writer, data: seq<Byte>, chain: seq<nat>, bytes: seq<Byte>)
    requires Holds(blocks, w, chain, bytes) && w.offset + |data| <= FB_SIZE
    ensures Holds(blocks, PutInBlock(w, data), chain, bytes + data)
  {
    var base := (|chain| - 1) * PAYLOAD;
    var w' := PutInBlock(w, data);
    assert w'.buf[LINK..w'.offset] == w.buf[LINK..w.offset] + data;
    assert (bytes + data)[base..] == bytes[base..] + data;
    forall k | 0 <= k < |chain| - 1
      ensures LinkedBlock(blocks, chain, bytes + data, k)
    {
      assert (bytes + data)[k * PAYLOAD..(k + 1) * PAYLOAD] == bytes[k * PAYLOAD..(k + 1) * PAYLOAD];
      assert LinkedBlock(blocks, chain, bytes, k);
    }
  }

  /** One turn of the writer's loop: the full block reaches the disk and the chain grows by the new id. */
  lemma RollHolds(blocks: map<nat, seq<Byte>>, w: Writer, data: seq<Byte>, next: nat,
                  chain: seq<nat>, bytes: seq<Byte>)
    requires Holds(blocks, w, chain, bytes) && w.offset + |data| > FB_SIZE
    requires next !in chain && next < MAX_BLOCKS
    ensures var full := FullBuffer(w, data, next);
            Holds(blocks[w.id := full], Writer(next, full, LINK), chain + [next],
                  bytes + data[..FB_SIZE - w.offset])
  {
    var full := FullBuffer(w, data, next);
    var blocks' := blocks[w.id := full];
    var chain' := chain + [next];
    var bytes' := bytes + data[..FB_SIZE - w.offset];
    var n := |chain|;
    assert |bytes'| == n * PAYLOAD;
    forall k | 0 <= k < |chain'| - 1
      ensures LinkedBlock(blocks', chain', bytes', k)
    {
      if k < n - 1 {
        assert bytes'[k * PAYLOAD..(k + 1) * PAYLOAD] == bytes[k * PAYLOAD..(k + 1) * PAYLOAD];
        assert LinkedBlock(blocks, chain, bytes, k);
        assert chain[k] != w.id;
      } else {
        assert bytes'[(n - 1) * PAYLOAD..n * PAYLOAD]
            == bytes[(n - 1) * PAYLOAD..] + data[..FB_SIZE - w.offset];
        assert full[LINK..] == w.buf[LINK..w.offset] + data[..FB_SIZE - w.offset];
      }
    }
  }

  /** The ids a write takes are new, distinct from everything taken, and the only blocks it writes besides its own. */
  lemma {:induction false} WriteDataFresh(m: Manager, w: Writer, data: seq<Byte>, taken: set<nat>)
    requires WriterShape(w) && Fresh(m, taken)
    ensures var r := WriteData(m, w, data);
            && Fresh(r.m, taken + Elems(r.ids))
            && Elems(r.ids) !! taken
            && WritesOnly(r.log, {w.id} + Elems(r.ids))
            && r.m == m.(freeList := r.m.freeList, maxBlock := r.m.maxBlock)
            && m.maxBlock <= r.m.maxBlock
    decreases |data|, w.offset
  {
    var r := WriteData(m, w, data);
    if w.offset + |data| > FB_SIZE {
      var a := Alloc(m);
      var w1 := Writer(a.id, FullBuffer(w, data, a.id), LINK);
      var rest := WriteData(a.m, w1, data[FB_SIZE - w.offset..]);
      AllocFresh(m, taken);
      WriteDataFresh(a.m, w1, data[FB_SIZE - w.offset..], taken + {a.id});
      assert Elems(r.ids) == {a.id} + Elems(rest.ids);
      assert taken + {a.id} + Elems(rest.ids) == taken + Elems(r.ids);
    } else {
      assert taken + Elems(r.ids) == taken;
    }
  }

  /** The first turn of the writer's loop, spelled out. */
  lemma WriteDataUnroll(d: Disk, m: Manager, w: Writer, data: seq<Byte>)
    requires WriterShape(w) && w.offset + |data| > FB_SIZE
    ensures var a := Alloc(m);
            var copy := FB_SIZE - w.offset;
            var full := FullBuffer(w, data, a.id);
            var rest := WriteData(a.m, Writer(a.id, full, LINK), data[copy..]);
            var r := WriteData(m, w, data);
            && r == Written(rest.m, rest.w, [a.id] + rest.ids, [BlockWrite(w.id, full)] + rest.log)
            && Apply(d, r.log) == Apply(d.(blocks := d.blocks[w.id := full]), rest.log)
  {
    var a := Alloc(m);
    var full := FullBuffer(w, data, a.id);
    var rest := WriteData(a.m, Writer(a.id, full, LINK), data[FB_SIZE - w.offset..]);
    assert ([BlockWrite(w.id, full)] + rest.log)[1..] == rest.log;
  }

  /** A write through the intended loop appends exactly `data` to the stream and extends the chain by the new ids. */
  lemma {:induction false} WriteDataAppends(d: Disk, m: Manager, w: Writer, data: seq<Byte>, chain: seq<nat>,
                                            bytes: seq<Byte>, taken: set<nat>)
    requires Fresh(m, taken) && Elems(chain) <= taken
    requires Holds(d.blocks, w, chain, bytes)
    requires WriteData(m, w, data).m.maxBlock <= MAX_BLOCKS
    ensures var r := WriteData(m, w, data);
            Holds(Apply(d, r.log).blocks, r.w, chain + r.ids, bytes + data)
    decreases |data|, w.offset
  {
    assert WriterShape(w);
    if w.offset + |data| > FB_SIZE {
      WriteDataUnroll(d, m, w, data);
      AllocFresh(m, taken);
      hide Holds, Fresh, Elems, WriteData, Apply, FullBuffer, Alloc;
      var a := Alloc(m);
      var copy := FB_SIZE - w.offset;
      var full := FullBuffer(w, data, a.id);
      var w1 := Writer(a.id, full, LINK);
      WriteDataMonotone(a.m, w1, data[copy..]);
      NotInElems(chain, a.id, taken);
      RollHolds(d.blocks, w, data, a.id, chain, bytes);
      WriteDataAppends(d.(blocks := d.blocks[w.id := full]), a.m, w1, data[copy..], chain + [a.id],
                       bytes + data[..copy], taken + {a.id});
      var rest := WriteData(a.m, w1, data[copy..]);
      Assoc(chain, [a.id], rest.ids);
      Assoc(bytes, data[..copy], data[copy..]);
      SplitAt(data, copy);
    } else {
      PutInBlockHolds(d.blocks, w, data, chain, bytes);
      assert chain + [] == chain;
    }
  }

  /** A write puts out one block for every block it takes: its own first, then those it took, in order, but the last. */
  lemma {:induction false} WriteDataOrder(m: Manager, w: Writer, data: seq<Byte>)
    requires WriterShape(w)
    ensures var r := WriteData(m, w, data);
            && |r.log| == |r.ids|
            && (forall i :: 0 <= i < |r.log| ==> r.log[i].BlockWrite? && r.log[i].id == ([w.id] + r.ids)[i])
            && r.w.id == ([w.id] + r.ids)[|r.ids|]
    decreases |data|, w.offset
  {
    if w.offset + |data| > FB_SIZE {
      var a := Alloc(m);
      var full := FullBuffer(w, data, a.id);
      var w1 := Writer(a.id, full, LINK);
      var rest := WriteData(a.m, w1, data[FB_SIZE - w.offset..]);
      WriteDataOrder(a.m, w1, data[FB_SIZE - w.offset..]);
      var r := WriteData(m, w, data);
      assert r.ids == [a.id] + rest.ids && r.log == [BlockWrite(w.id, full)] + rest.log && r.w == rest.w;
      hide WriteData;
      forall i | 0 <= i < |r.log|
        ensures r.log[i].BlockWrite? && r.log[i].id == ([w.id] + r.ids)[i]
      {
        if i > 0 {
          assert r.log[i] == rest.log[i - 1];
          assert ([a.id] + rest.ids)[i - 1] == ([w.id] + r.ids)[i];
        }
      }
    }
  }

  lemma SplitAt<T>(s: seq<T>, i: nat)
    requires i <= |s|
    ensures s[..i] + s[i..] == s
  {
  }

  lemma NotInElems(s: seq<nat>, x: nat, taken: set<nat>)
    requires Elems(s) <= taken && x !in taken
    ensures x !in s && Elems(s + [x]) <= taken + {x}
  {
    assert forall y :: y in s ==> y in Elems(s);
  }

  /** A block is only taken for bytes that are then put into it. */
  lemma {:induction false} WriteDataSettles(m: Manager, w: Writer, data: seq<Byte>)
    requires WriterShape(w)
    ensures w.offset > LINK || data != [] ==> WriteData(m, w, data).w.offset > LINK
    decreases |data|, w.offset
  {
    if w.offset + |data| > FB_SIZE {
      var a := Alloc(m);
      WriteDataSettles(a.m, Writer(a.id, FullBuffer(w, data, a.id), LINK), data[FB_SIZE - w.offset..]);
    }
  }

  lemma {:induction false} WriteDataMonotone(m: Manager, w: Writer, data: seq<Byte>)
    requires WriterShape(w)
    ensures m.maxBlock <= WriteData(m, w, data).m.maxBlock
    decreases |data|, w.offset
  {
    if w.offset + |data| > FB_SIZE {
      var a := Alloc(m);
      WriteDataMonotone(a.m, Writer(a.id, FullBuffer(w, data, a.id), LINK), data[FB_SIZE - w.offset..]);
    }
  }

  /** The final flush puts the whole stream on disk. */
  lemma {:induction false} FlushStores(d: Disk, w: Writer, chain: seq<nat>, bytes: seq<Byte>)
    requires Holds(d.blocks, w, chain, bytes) && Settled(chain, bytes)
    ensures Stored(Apply(d, FlushLog(w)).blocks, chain, bytes)
    ensures WritesOnly(FlushLog(w), {w.id})
    ensures FlushLog(w) == if bytes == [] then [] else [BlockWrite(w.id, w.buf)]
  {
    var d' := Apply(d, FlushLog(w));
    if w.offset > LINK {
      ApplySingle(d, BlockWrite(w.id, w.buf));
      assert d' == ApplyOne(d, BlockWrite(w.id, w.buf));
      forall k | 0 <= k < |chain| - 1
        ensures LinkedBlock(d'.blocks, chain, bytes, k)
      {
        assert LinkedBlock(d.blocks, chain, bytes, k);
      }
    }
  }

  // ---------------------------------------------------------------- a sequence of writes

  function Concat(chunks: seq<seq<Byte>>): seq<Byte>
  {
    if chunks == [] then [] else chunks[0] + Concat(chunks[1..])
  }

  function WriteChunks(m: Manager, w: Writer, chunks: seq<seq<Byte>>): (r: Written)
    requires WriterShape(w)
    ensures WriterShape(r.w)
    decreases |chunks|
  {
    if chunks == [] then Written(m, w, [], [])
    else
      var r1 := WriteData(m, w, chunks[0]);
      var r2 := WriteChunks(r1.m, r1.w, chunks[1..]);
      Written(r2.m, r2.w, r1.ids + r2.ids, r1.log + r2.log)
  }

  lemma {:induction false} WriteChunksFresh(m: Manager, w: Writer, chunks: seq<seq<Byte>>, taken: set<nat>)
    requires WriterShape(w) && Fresh(m, taken)
    ensures var r := WriteChunks(m, w, chunks);
            && Fresh(r.m, taken + Elems(r.ids))
            && Elems(r.ids) !! taken
            && WritesOnly(r.log, taken + {w.id} + Elems(r.ids))
            && r.m == m.(freeList := r.m.freeList, maxBlock := r.m.maxBlock)
            && m.maxBlock <= r.m.maxBlock
            && r.w.id in {w.id} + Elems(r.ids)
    decreases |chunks|
  {
    var r := WriteChunks(m, w, chunks);
    if chunks == [] {
      assert taken + Elems(r.ids) == taken;
    } else {
      hide Fresh, Elems, WritesOnly;
      var r1 := WriteData(m, w, chunks[0]);
      var r2 := WriteChunks(r1.m, r1.w, chunks[1..]);
      WriteDataFresh(m, w, chunks[0], taken);
      WriteDataId(m, w, chunks[0]);
      WriteChunksFresh(r1.m, r1.w, chunks[1..], taken + Elems(r1.ids));
      ElemsConcat(r1.ids, r2.ids);
      assert taken + Elems(r.ids) == taken + Elems(r1.ids) + Elems(r2.ids);
      WritesOnlyConcat(r1.log, r2.log, {w.id} + Elems(r1.ids),
                       taken + Elems(r1.ids) + {r1.w.id} + Elems(r2.ids), taken + {w.id} + Elems(r.ids));
    }
  }

  lemma {:induction false} WriteDataId(m: Manager, w: Writer, data: seq<Byte>)
    requires WriterShape(w)
    ensures var r := WriteData(m, w, data); r.w.id in {w.id} + Elems(r.ids)
    decreases |data|, w.offset
  {
    if w.offset + |data| > FB_SIZE {
      var a := Alloc(m);
      WriteDataId(a.m, Writer(a.id, FullBuffer(w, data, a.id), LINK), data[FB_SIZE - w.offset..]);
    }
  }

  /** Any sequence of writes through one writer appends the concatenation of what was written. */
  lemma {:induction false} WriteChunksAppends(d: Disk, m: Manager, w: Writer, chunks: seq<seq<Byte>>,
                                              chain: seq<nat>, bytes: seq<Byte>, taken: set<nat>)
    requires Fresh(m, taken) && Elems(chain) <= taken
    requires Holds(d.blocks, w, chain, bytes)
    requires WriteChunks(m, w, chunks).m.maxBlock <= MAX_BLOCKS
    ensures var r := WriteChunks(m, w, chunks);
            Holds(Apply(d, r.log).blocks, r.w, chain + r.ids, bytes + Concat(chunks))
    decreases |chunks|
  {
    assert WriterShape(w);
    hide Holds, Fresh;
    if chunks == [] {
      assert chain + [] == chain && bytes + [] == bytes;
    } else {
      var r1 := WriteData(m, w, chunks[0]);
      var r2 := WriteChunks(r1.m, r1.w, chunks[1..]);
      WriteDataFresh(m, w, chunks[0], taken);
      WriteChunksFresh(r1.m, r1.w, chunks[1..], taken + Elems(r1.ids));
      WriteDataAppends(d, m, w, chunks[0], chain, bytes, taken);
      ElemsConcat(chain, r1.ids);
      ApplyConcat(d, r1.log, r2.log);
      WriteChunksAppends(Apply(d, r1.log), r1.m, r1.w, chunks[1..], chain + r1.ids, bytes + chunks[0],
                         taken + Elems(r1.ids));
      Assoc(chain, r1.ids, r2.ids);
      Assoc(bytes, chunks[0], Concat(chunks[1..]));
    }
  }

  lemma {:induction false} WriteChunksSettles(m: Manager, w: Writer, chunks: seq<seq<Byte>>)
    requires WriterShape(w)
    ensures w.offset > LINK || Concat(chunks) != [] ==> WriteChunks(m, w, chunks).w.offset > LINK
    decreases |chunks|
  {
    if chunks != [] {
      var r1 := WriteData(m, w, chunks[0]);
      WriteDataSettles(m, w, chunks[0]);
      WriteChunksSettles(r1.m, r1.w, chunks[1..]);
    }
  }

  lemma HoldsSettled(d: Disk, w: Writer, chain: seq<nat>, bytes: seq<Byte>)
    requires Holds(d.blocks, w, chain, bytes) && w.offset > LINK
    ensures Settled(chain, bytes)
  {
  }

  /** A stream of its own, opened, written and flushed: the manager after it, its first block, its blocks and writes. */
  datatype Saved = Saved(m: Manager, id: nat, chain: seq<nat>, log: seq<DiskWrite>)

  /** What is left once a writer opened at `o` has been written to, with result `r`, and flushed. */
  function Finished(o: Written, r: Written): Saved
  {
    Saved(r.m, o.w.id, [o.w.id] + r.ids, r.log + FlushLog(r.w))
  }

  /** `chunks` through a writer of their own, with the intended writer loop. */
  function SaveStream(m: Manager, chunks: seq<seq<Byte>>): Saved
  {
    var o := OpenWriter(m);
    Finished(o, WriteChunks(o.m, o.w, chunks))
  }

  lemma OpenHolds(d: Disk, m: Manager)
    requires Alloc(m).id < MAX_BLOCKS
    ensures var w := OpenWriter(m).w; Holds(d.blocks, w, [w.id], [])
  {
    assert OpenWriter(m).w.buf[LINK..LINK] == [];
  }

  /** A stream opened, written in any chunks and flushed is on disk in the blocks its writer took. */
  lemma {:induction false} StreamStored(d: Disk, m: Manager, chunks: seq<seq<Byte>>, taken: set<nat>)
    requires Fresh(m, taken) && Concat(chunks) != []
    requires SaveStream(m, chunks).m.maxBlock <= MAX_BLOCKS
    ensures var s := SaveStream(m, chunks); Stored(Apply(d, s.log).blocks, s.chain, Concat(chunks))
  {
    hide Fresh, Holds, WriteChunks, Stored, Apply, Alloc, WritesOnly;
    var o := OpenWriter(m);
    var r := WriteChunks(o.m, o.w, chunks);
    AllocFresh(m, taken);
    WriteChunksFresh(o.m, o.w, chunks, taken + {o.w.id});
    OpenHolds(d, m);
    WriteChunksAppends(d, o.m, o.w, chunks, [o.w.id], [], taken + {o.w.id});
    WriteChunksSettles(o.m, o.w, chunks);
    assert [] + Concat(chunks) == Concat(chunks);
    var d1 := Apply(d, r.log);
    HoldsSettled(d1, r.w, [o.w.id] + r.ids, Concat(chunks));
    FlushStores(d1, r.w, [o.w.id] + r.ids, Concat(chunks));
    ApplyConcat(d, r.log, FlushLog(r.w));
  }

  // ---------------------------------------------------------------- a flush in mid-stream

  lemma FirstBlocks(blocks: map<nat, seq<Byte>>, w: Writer, chain: seq<nat>, bytes: seq<Byte>)
    requires Holds(blocks, w, chain, bytes)
    ensures Holds(blocks[w.id := w.buf], Flush(w), chain, bytes[..(|chain| - 1) * PAYLOAD])
    ensures Holds(blocks, w.(offset := LINK), chain, bytes[..(|chain| - 1) * PAYLOAD])
  {
    var kept := bytes[..(|chain| - 1) * PAYLOAD];
    forall k | 0 <= k < |chain| - 1
      ensures LinkedBlock(blocks[w.id := w.buf], chain, kept, k) && LinkedBlock(blocks, chain, kept, k)
    {
      assert LinkedBlock(blocks, chain, bytes, k);
      assert kept[k * PAYLOAD..(k + 1) * PAYLOAD] == bytes[k * PAYLOAD..(k + 1) * PAYLOAD];
    }
  }

  /**
    `metaBlockWriter_flush` puts the offset back behind the link, so what is written next overwrites the payload of
    the block just flushed: the stream goes on from the end of the block before. The flush is harmless, and the
    stream is what was written before it and after it, if and only if the current block had no payload.
   */
  lemma {:induction false} MidFlushHarmlessIff(d: Disk, m: Manager, w: Writer, data: seq<Byte>, chain: seq<nat>,
                                               bytes: seq<Byte>, taken: set<nat>)
    requires Fresh(m, taken) && Elems(chain) <= taken
    requires Holds(d.blocks, w, chain, bytes)
    requires WriteData(m, Flush(w), data).m.maxBlock <= MAX_BLOCKS
    ensures var r := WriteData(m, Flush(w), data);
            var blocks := Apply(Apply(d, FlushLog(w)), r.log).blocks;
            && Holds(blocks, r.w, chain + r.ids, bytes[..(|chain| - 1) * PAYLOAD] + data)
            && (Holds(blocks, r.w, chain + r.ids, bytes + data) <==> w.offset == LINK)
  {
    var r, kept := WriteData(m, Flush(w), data), bytes[..(|chain| - 1) * PAYLOAD];
    var d1 := Apply(d, FlushLog(w));
    if w.offset > LINK {
      ApplySingle(d, BlockWrite(w.id, w.buf));
    }
    FirstBlocks(d.blocks, w, chain, bytes);
    assert w.offset == LINK + |bytes| - |kept|;
    assert w.offset == LINK ==> bytes == kept && Flush(w) == w;
    assert Holds(d1.blocks, Flush(w), chain, kept);
    hide Holds, Fresh, WriteData;
    WriteDataAppends(d1, m, Flush(w), data, chain, kept, taken);
    if Holds(Apply(d1, r.log).blocks, r.w, chain + r.ids, bytes + data) {
      HoldsLength(Apply(d1, r.log).blocks, r.w, chain + r.ids, bytes + data, kept + data);
    }
  }

  /** A writer's offset tells how much it has been given. */
  lemma HoldsLength(blocks: map<nat, seq<Byte>>, w: Writer, chain: seq<nat>, a: seq<Byte>, b: seq<Byte>)
    requires Holds(blocks, w, chain, a) && Holds(blocks, w, chain, b)
    ensures |a| == |b|
  {
  }

  // ---------------------------------------------------------------- the writer's loop as written

  /**
    The locals of `metaBlockWriter_write_data` at the head of its loop, with the blocks taken and the writes made so
    far; `offset` is the cached copy.
   */
  datatype LoopState = LoopState(m: Manager, w: Writer, offset: nat, data: seq<Byte>,
                                 ids: seq<nat>, log: seq<DiskWrite>)

  function LoopStart(m: Manager, w: Writer, data: seq<Byte>): LoopState
  {
    LoopState(m, w, w.offset, data, [], [])
  }

  predicate LoopGuard(s: LoopState)
  {
    s.offset + |s.data| > FB_SIZE
  }

  ghost predicate LoopShape(s: LoopState)
  {
    |s.w.buf| == FB_SIZE && LINK <= s.offset <= FB_SIZE
  }

  /** One turn of the loop as written: the flush resets the writer's offset, but not the cached one. */
  function LoopTurn(s: LoopState): (s': LoopState)
    requires |s.w.buf| == FB_SIZE && LINK <= s.offset <= FB_SIZE && LoopGuard(s)
  {
    var copy := FB_SIZE - s.offset;
    var a := Alloc(s.m);
    var buf := Le(a.id, LINK) + s.w.buf[LINK..s.offset] + s.data[..copy];
    LoopState(a.m, Writer(a.id, buf, LINK), FB_SIZE, s.data[copy..],
              s.ids + [a.id], s.log + [BlockWrite(s.w.id, buf)])
  }

  /** The state after `n` turns, or after the loop has exited if that comes first. */
  ghost function LoopTurns(s: LoopState, n: nat): (s': LoopState)
    requires LoopShape(s)
    ensures LoopShape(s')
    decreases n
  {
    if n == 0 || !LoopGuard(s) then s else LoopTurns(LoopTurn(s), n - 1)
  }

  ghost predicate ExitsAfter(s: LoopState, n: nat)
    requires LoopShape(s)
  {
    !LoopGuard(LoopTurns(s, n))
  }

  /**
    As written, the loop exits if and only if the data fits in the current block. Otherwise every turn takes one
    more block from the manager, for ever.
   */
  lemma {:induction false} AsWrittenExitsIffFits(s: LoopState)
    requires LoopShape(s)
    ensures (exists n: nat :: ExitsAfter(s, n)) <==> s.offset + |s.data| <= FB_SIZE
    ensures LoopGuard(s) ==> forall n: nat :: BlocksLeft(LoopTurns(s, n).m) == BlocksLeft(s.m) - n
  {
    if LoopGuard(s) {
      forall n: nat
        ensures !ExitsAfter(s, n) && BlocksLeft(LoopTurns(s, n).m) == BlocksLeft(s.m) - n
      {
        LoopNeverExits(s, n);
      }
    } else {
      assert ExitsAfter(s, 0);
    }
  }

  /** Blocks the manager has in hand, less those it has taken by raising the high-water mark. */
  function BlocksLeft(m: Manager): int
  {
    |m.freeList| - m.maxBlock
  }

  lemma {:induction false} LoopNeverExits(s: LoopState, n: nat)
    requires LoopShape(s) && LoopGuard(s)
    ensures LoopGuard(LoopTurns(s, n)) && BlocksLeft(LoopTurns(s, n).m) == BlocksLeft(s.m) - n
    decreases n
  {
    if n > 0 {
      LoopNeverExits(LoopTurn(s), n - 1);
    }
  }

  /** The blocks written in a loop that began with block `id` carry `payload`, each linked to the next block taken. */
  ghost predicate SamePayload(log: seq<DiskWrite>, id: nat, ids: seq<nat>, payload: seq<Byte>)
  {
    && |log| == |ids|
    && forall i :: 0 <= i < |log| ==> log[i] == BlockWrite(([id] + ids)[i], Le(ids[i], LINK) + payload)
  }

  /**
    What the loop writes when it does not exit: the block filled up as intended, and after that the same payload again
    and again, under one new link after another.
   */
  lemma {:induction false} LoopWritesSame(m: Manager, w: Writer, data: seq<Byte>, n: nat)
    requires WriterShape(w) && w.offset + |data| > FB_SIZE
    ensures var s, copy := LoopTurns(LoopStart(m, w, data), n), FB_SIZE - w.offset;
            && |s.ids| == n && SamePayload(s.log, w.id, s.ids, w.buf[LINK..w.offset] + data[..copy])
            && (n > 0 ==> s.data == data[copy..] && s.w.id == s.ids[n - 1])
  {
    var s, copy := LoopStart(m, w, data), FB_SIZE - w.offset;
    var payload := w.buf[LINK..w.offset] + data[..copy];
    if n > 0 {
      hide LoopTurns;
      var t := LoopTurn(s);
      assert t.w.buf[LINK..] == payload;
      assert t.log == [BlockWrite(w.id, Le(t.w.id, LINK) + payload)] by {
        assert Le(t.w.id, LINK) + w.buf[LINK..w.offset] + data[..copy] == Le(t.w.id, LINK) + payload;
      }
      TurnsAgain(t, n - 1, w.id, payload);
      assert LoopTurns(s, n) == LoopTurns(t, n - 1) by {
        LoopTurnsFirst(s, n);
      }
    }
  }

  lemma LoopTurnsFirst(s: LoopState, n: nat)
    requires LoopShape(s) && LoopGuard(s) && n > 0
    ensures LoopTurns(s, n) == LoopTurns(LoopTurn(s), n - 1)
  {
  }

  /** Every further turn adds a block with the same payload. */
  lemma {:induction false} TurnsAgain(s: LoopState, n: nat, id: nat, payload: seq<Byte>)
    requires LoopShape(s) && s.offset == FB_SIZE && LoopGuard(s) && s.w.buf[LINK..] == payload
    requires SamePayload(s.log, id, s.ids, payload) && s.ids != [] && s.w.id == s.ids[|s.ids| - 1]
    ensures var t := LoopTurns(s, n);
            && SamePayload(t.log, id, t.ids, payload) && |t.ids| == |s.ids| + n
            && t.data == s.data && t.w.id == t.ids[|t.ids| - 1]
    decreases n
  {
    hide LoopTurn, SamePayload, Le;
    if n > 0 {
      var t := LoopTurn(s);
      TurnKeeps(s, payload);
      LongerSame(s.log, id, s.ids, payload, t.w.id);
      TurnsAgain(t, n - 1, id, payload);
    }
  }

  lemma TurnKeeps(s: LoopState, payload: seq<Byte>)
    requires LoopShape(s) && s.offset == FB_SIZE && LoopGuard(s) && s.w.buf[LINK..] == payload
    ensures var t := LoopTurn(s);
            && LoopShape(t) && t.offset == FB_SIZE && t.w.buf[LINK..] == payload && t.data == s.data
            && t.ids == s.ids + [t.w.id] && t.log == s.log + [BlockWrite(s.w.id, Le(t.w.id, LINK) + payload)]
  {
    hide Le;
    var t := LoopTurn(s);
    assert s.data[..0] == [] && s.data[0..] == s.data && s.w.buf[LINK..FB_SIZE] == s.w.buf[LINK..];
    assert t.w.buf == Le(t.w.id, LINK) + payload + [];
    assert Le(t.w.id, LINK) + payload + [] == Le(t.w.id, LINK) + payload;
  }

  lemma LongerSame(log: seq<DiskWrite>, id: nat, ids: seq<nat>, payload: seq<Byte>, next: nat)
    requires SamePayload(log, id, ids, payload) && ids != []
    ensures SamePayload(log + [BlockWrite(ids[|ids| - 1], Le(next, LINK) + payload)], id, ids + [next], payload)
  {
    hide Le;
  }

  /** What follows the loop: the rest of the data is copied behind the cached offset. */
  function LoopExit(s: LoopState): (r: Written)
    requires |s.w.buf| == FB_SIZE && LINK <= s.offset && !LoopGuard(s)
    ensures WriterShape(r.w)
  {
    Written(s.m, PutInBlock(s.w.(offset := s.offset), s.data), s.ids, s.log)
  }

  /** `metaBlockWriter_write_data` as written: its result, or `None` if its loop never exits. */
  ghost function AsWritten(m: Manager, w: Writer, data: seq<Byte>): (r: Option<Written>)
    requires WriterShape(w)
    ensures r.Some? ==> WriterShape(r.value.w)
  {
    var s := LoopStart(m, w, data);
    if exists n: nat :: ExitsAfter(s, n) then
      var n: nat :| ExitsAfter(s, n);
      Some(LoopExit(LoopTurns(s, n)))
    else
      None
  }

  /** A list of writes as written; it returns when each of them does. */
  ghost function AsWrittenChunks(m: Manager, w: Writer, chunks: seq<seq<Byte>>): Option<Written>
    requires WriterShape(w)
    decreases |chunks|
  {
    if chunks == [] then Some(Written(m, w, [], []))
    else
      var r1 := AsWritten(m, w, chunks[0]);
      if r1.None? then None
      else
        var r2 := AsWrittenChunks(r1.value.m, r1.value.w, chunks[1..]);
        if r2.None? then None
        else Some(Written(r2.value.m, r2.value.w, r1.value.ids + r2.value.ids, r1.value.log + r2.value.log))
  }

  /** `SaveStream` with the writer's loop as written. */
  ghost function AsWrittenStream(m: Manager, chunks: seq<seq<Byte>>): Option<Saved>
  {
    var o := OpenWriter(m);
    var r := AsWrittenChunks(o.m, o.w, chunks);
    if r.None? then None else Some(Finished(o, r.value))
  }

  /** A write as written does what is intended if the data fits in the current block, and never returns otherwise. */
  lemma {:induction false} AsWrittenIff(m: Manager, w: Writer, data: seq<Byte>)
    requires WriterShape(w)
    ensures AsWritten(m, w, data) == if w.offset + |data| <= FB_SIZE then Some(WriteData(m, w, data)) else None
  {
    var s := LoopStart(m, w, data);
    AsWrittenExitsIffFits(s);
    if !LoopGuard(s) {
      assert forall n: nat :: LoopTurns(s, n) == s;
    }
  }

  /**
    So a list of writes as written does what is intended if all of it fits in the current block, and never returns
    otherwise.
   */
  lemma {:induction false} AsWrittenChunksIff(m: Manager, w: Writer, chunks: seq<seq<Byte>>)
    requires WriterShape(w)
    ensures AsWrittenChunks(m, w, chunks)
         == if w.offset + |Concat(chunks)| <= FB_SIZE then Some(WriteChunks(m, w, chunks)) else None
    decreases |chunks|
  {
    if chunks != [] {
      hide AsWritten;
      AsWrittenIff(m, w, chunks[0]);
      if w.offset + |chunks[0]| <= FB_SIZE {
        var r1 := WriteData(m, w, chunks[0]);
        AsWrittenChunksIff(r1.m, r1.w, chunks[1..]);
      }
    }
  }

  /** A stream can be saved by the code as written if and only if it fits one block, and is then saved as intended. */
  lemma {:induction false} AsWrittenStreamIff(m: Manager, chunks: seq<seq<Byte>>)
    ensures AsWrittenStream(m, chunks) == if |Concat(chunks)| <= PAYLOAD then Some(SaveStream(m, chunks)) else None
  {
    var o := OpenWriter(m);
    AsWrittenChunksIff(o.m, o.w, chunks);
  }

  // ---------------------------------------------------------------- reader

  datatype Reader = Reader(id: nat, buf: seq<Byte>, offset: nat, next: nat)

  predicate ReaderShape(r: Reader)
  {
    |r.buf| == FB_SIZE && LINK <= r.offset <= FB_SIZE
  }

  /**
    What reading block `id` leaves in a buffer that held `was`; a block never written reads as zeroes when it lies
    below a written one, and past the end of the file nothing is read at all.
   */
  function BlockContents(d: Disk, id: nat, was: seq<Byte>): (b: seq<Byte>)
    requires |was| == FB_SIZE
    ensures |b| == FB_SIZE
  {
    if id in d.blocks && |d.blocks[id]| == FB_SIZE then d.blocks[id]
    else if exists j :: j in d.blocks && j > id then ZeroBuffer()
    else was
  }

  /** A block never written reads as zeroes below a written one; past the end of the file the buffer stays as it was. */
  lemma UnwrittenReads(d: Disk, id: nat, was: seq<Byte>)
    requires |was| == FB_SIZE && id !in d.blocks
    ensures var b, below := BlockContents(d, id, was), exists j :: j in d.blocks && id < j;
            (below ==> forall i :: 0 <= i < |b| ==> b[i] == 0) && (!below ==> b == was)
  {
  }

  /** `metaBlockReader_read_new_block`. */
  function Load(d: Disk, was: seq<Byte>, id: nat): (r: Reader)
    requires |was| == FB_SIZE
    ensures ReaderShape(r)
  {
    var buf := BlockContents(d, id, was);
    Reader(id, buf, LINK, FromLe(buf[..LINK]))
  }

  /** `loads` lists the blocks that were read, in order; the manager appends each to `used_blocks`. */
  datatype Read = Read(bytes: seq<Byte>, r: Reader, loads: seq<nat>)

  /** `metaBlockReader_read_data`. */
  function ReadData(d: Disk, r: Reader, n: nat): (res: Read)
    requires ReaderShape(r)
    ensures ReaderShape(res.r) && |res.bytes| == n
    decreases n, r.offset
  {
    if r.offset + n > FB_SIZE then
      var rest := ReadData(d, Load(d, r.buf, r.next), n - (FB_SIZE - r.offset));
      Read(r.buf[r.offset..] + rest.bytes, rest.r, [r.next] + rest.loads)
    else
      Read(r.buf[r.offset..r.offset + n], r.(offset := r.offset + n), [])
  }

  function ReadChunks(d: Disk, r: Reader, sizes: seq<nat>): (res: Read)
    requires ReaderShape(r)
    ensures ReaderShape(res.r)
    decreases |sizes|
  {
    if sizes == [] then Read([], r, [])
    else
      var a := ReadData(d, r, sizes[0]);
      var b := ReadChunks(d, a.r, sizes[1..]);
      Read(a.bytes + b.bytes, b.r, a.loads + b.loads)
  }

  /** The reader has loaded block `k` of the stream and stands at stream position `p`. */
  ghost predicate ReaderAt(d: Disk, r: Reader, chain: seq<nat>, bytes: seq<Byte>, k: nat, p: nat)
  {
    && ReaderShape(r)
    && k < |chain| && p <= |bytes|
    && IsBlock(d.blocks, chain[k]) && r.buf == d.blocks[chain[k]]
    && r.offset == LINK + p - k * PAYLOAD
    && (k + 1 < |chain| ==> r.next == chain[k + 1])
  }

  lemma LoadStart(d: Disk, was: seq<Byte>, id: nat)
    requires |was| == FB_SIZE
    ensures Load(d, was, id).offset == LINK
  {
  }

  lemma LoadAt(d: Disk, was: seq<Byte>, chain: seq<nat>, bytes: seq<Byte>, k: nat)
    requires |was| == FB_SIZE && Stored(d.blocks, chain, bytes) && bytes != [] && k < |chain|
    ensures ReaderAt(d, Load(d, was, chain[k]), chain, bytes, k, k * PAYLOAD)
  {
    if k + 1 < |chain| {
      assert LinkedBlock(d.blocks, chain, bytes, k);
      U64RoundTrip(chain[k + 1]);
    }
  }

  /** The part of block `k` from stream position `p` on is the stream from `p` on, up to the end of the block. */
  lemma BlockSlice(d: Disk, chain: seq<nat>, bytes: seq<Byte>, k: nat, p: nat, q: nat)
    requires Stored(d.blocks, chain, bytes) && k < |chain| && IsBlock(d.blocks, chain[k])
    requires k * PAYLOAD <= p <= q <= |bytes| && q <= (k + 1) * PAYLOAD
    ensures d.blocks[chain[k]][LINK + p - k * PAYLOAD..LINK + q - k * PAYLOAD] == bytes[p..q]
  {
    var base := k * PAYLOAD;
    var block := d.blocks[chain[k]];
    var stop := BlockEnd(chain, bytes, k);
    BlockPayload(d, chain, bytes, k);
    assert base <= p <= q <= stop <= |bytes| && stop - base <= PAYLOAD;
    hide Stored;
    SliceOfSlice(block, LINK, LINK + stop - base, LINK + p - base, LINK + q - base);
    SliceOfSlice(bytes, base, stop, p, q);
  }

  /** Where block `k`'s part of the stream ends. */
  ghost function BlockEnd(chain: seq<nat>, bytes: seq<Byte>, k: nat): nat
  {
    if k + 1 < |chain| then (k + 1) * PAYLOAD else |bytes|
  }

  lemma BlockPayload(d: Disk, chain: seq<nat>, bytes: seq<Byte>, k: nat)
    requires Stored(d.blocks, chain, bytes) && k < |chain| && IsBlock(d.blocks, chain[k])
    ensures k * PAYLOAD <= BlockEnd(chain, bytes, k) <= |bytes|
    ensures BlockEnd(chain, bytes, k) - k * PAYLOAD <= PAYLOAD
    ensures d.blocks[chain[k]][LINK..LINK + BlockEnd(chain, bytes, k) - k * PAYLOAD]
         == bytes[k * PAYLOAD..BlockEnd(chain, bytes, k)]
  {
    var block := d.blocks[chain[k]];
    if k + 1 < |chain| {
      assert LinkedBlock(d.blocks, chain, bytes, k);
      assert block[LINK..FB_SIZE] == block[LINK..];
    } else {
      assert k == |chain| - 1;
      assert bytes[k * PAYLOAD..|bytes|] == bytes[k * PAYLOAD..];
    }
  }

  lemma SliceOfSlice<T>(s: seq<T>, a: nat, b: nat, p: nat, q: nat)
    requires a <= p <= q <= b <= |s|
    ensures s[a..b][p - a..q - a] == s[p..q]
  {
    var t := s[a..b];
    assert forall i :: 0 <= i < q - p ==> t[p - a..q - a][i] == s[p..q][i];
  }

  lemma SliceConcat<T>(s: seq<T>, a: nat, b: nat, c: nat)
    requires a <= b <= c <= |s|
    ensures s[a..b] + s[b..c] == s[a..c]
  {
  }

  lemma SliceCons<T>(s: seq<T>, a: nat, c: nat)
    requires a < c <= |s|
    ensures [s[a]] + s[a + 1..c] == s[a..c]
  {
  }

  /** What a read from block `k` at position `p` that ends in block `k'` at position `q` must return. */
  ghost predicate ReadSlice(d: Disk, res: Read, chain: seq<nat>, bytes: seq<Byte>, k: nat, p: nat, k': nat, q: nat)
  {
    && k <= k' < |chain| && p <= q <= |bytes|
    && res.bytes == bytes[p..q]
    && res.loads == chain[k + 1..k' + 1]
    && ReaderAt(d, res.r, chain, bytes, k', q)
  }

  lemma ReadSliceEnds(d: Disk, res: Read, chain: seq<nat>, bytes: seq<Byte>, k: nat, p: nat, k': nat, q: nat)
    requires ReadSlice(d, res, chain, bytes, k, p, k', q)
    ensures k <= k' < |chain| && ReaderAt(d, res.r, chain, bytes, k', q)
  {
  }

  lemma ReadSliceCompose(d: Disk, a: Read, b: Read, chain: seq<nat>, bytes: seq<Byte>,
                         k: nat, p: nat, k1: nat, p1: nat, k2: nat, p2: nat)
    requires ReadSlice(d, a, chain, bytes, k, p, k1, p1) && ReadSlice(d, b, chain, bytes, k1, p1, k2, p2)
    ensures ReadSlice(d, Read(a.bytes + b.bytes, b.r, a.loads + b.loads), chain, bytes, k, p, k2, p2)
  {
    hide ReaderAt;
    SliceConcat(bytes, p, p1, p2);
    SliceConcat(chain, k + 1, k1 + 1, k2 + 1);
  }

  /** Reading `n` bytes from position `p` yields exactly those bytes, whatever blocks they lie in. */
  lemma {:induction false} ReadDataCorrect(d: Disk, r: Reader, n: nat, chain: seq<nat>, bytes: seq<Byte>,
                                           k: nat, p: nat) returns (k': nat)
    requires Stored(d.blocks, chain, bytes) && ReaderAt(d, r, chain, bytes, k, p) && p + n <= |bytes|
    ensures ReadSlice(d, ReadData(d, r, n), chain, bytes, k, p, k', p + n)
    decreases n, r.offset
  {
    hide Stored, ReaderAt, Load, ReadSlice, ReadData;
    ReaderBounds(d, r, n, chain, bytes, k, p);
    if r.offset + n > FB_SIZE {
      var q := (k + 1) * PAYLOAD;
      var left := n - (FB_SIZE - r.offset);
      var r1 := Load(d, r.buf, r.next);
      LoadStart(d, r.buf, r.next);
      var first := ReadFirstBlock(d, r, n, chain, bytes, k, p);
      k' := ReadDataCorrect(d, r1, left, chain, bytes, k + 1, q);
      ReadSliceCompose(d, first, ReadData(d, r1, left), chain, bytes, k, p, k + 1, q, k', p + n);
    } else {
      k' := k;
      ReadWithinBlock(d, r, n, chain, bytes, k, p);
    }
  }

  lemma ReaderBounds(d: Disk, r: Reader, n: nat, chain: seq<nat>, bytes: seq<Byte>, k: nat, p: nat)
    requires Stored(d.blocks, chain, bytes) && ReaderAt(d, r, chain, bytes, k, p) && p + n <= |bytes|
    ensures ReaderShape(r) && k < |chain|
    ensures r.offset + n > FB_SIZE ==> k + 1 < |chain|
    ensures (k + 1) * PAYLOAD + (n - (FB_SIZE - r.offset)) == p + n
    ensures |bytes| > 0 && p == |bytes| ==> k == |chain| - 1
  {
  }

  lemma {:induction false} ReadWithinBlock(d: Disk, r: Reader, n: nat, chain: seq<nat>, bytes: seq<Byte>, k: nat,
                                           p: nat)
    requires Stored(d.blocks, chain, bytes) && ReaderAt(d, r, chain, bytes, k, p)
    requires p + n <= |bytes| && r.offset + n <= FB_SIZE
    ensures ReadSlice(d, ReadData(d, r, n), chain, bytes, k, p, k, p + n)
  {
    BlockSlice(d, chain, bytes, k, p, p + n);
    hide Stored;
  }

  /** The turn of the reader's loop that uses up the current block and loads the next one. */
  lemma ReadFirstBlock(d: Disk, r: Reader, n: nat, chain: seq<nat>, bytes: seq<Byte>, k: nat, p: nat)
    returns (first: Read)
    requires Stored(d.blocks, chain, bytes) && ReaderAt(d, r, chain, bytes, k, p)
    requires p + n <= |bytes| && r.offset + n > FB_SIZE && k + 1 < |chain|
    ensures ReadSlice(d, first, chain, bytes, k, p, k + 1, (k + 1) * PAYLOAD)
    ensures first.r == Load(d, r.buf, r.next) && ReaderAt(d, first.r, chain, bytes, k + 1, (k + 1) * PAYLOAD)
    ensures var rest := ReadData(d, first.r, n - (FB_SIZE - r.offset));
            ReadData(d, r, n) == Read(first.bytes + rest.bytes, rest.r, first.loads + rest.loads)
  {
    hide Stored, Load;
    BlockSlice(d, chain, bytes, k, p, (k + 1) * PAYLOAD);
    LoadAt(d, r.buf, chain, bytes, k + 1);
    first := Read(r.buf[r.offset..], Load(d, r.buf, r.next), [r.next]);
    assert chain[k + 1..k + 2] == [chain[k + 1]];
  }

  function Sum(sizes: seq<nat>): nat
  {
    if sizes == [] then 0 else sizes[0] + Sum(sizes[1..])
  }

  lemma ReadNothing(d: Disk, r: Reader, chain: seq<nat>, bytes: seq<Byte>, k: nat, p: nat)
    requires ReaderAt(d, r, chain, bytes, k, p)
    ensures ReadSlice(d, Read([], r, []), chain, bytes, k, p, k, p)
  {
    assert bytes[p..p] == [] && chain[k + 1..k + 1] == [];
  }

  lemma {:induction false} ReadChunksCorrect(d: Disk, r: Reader, sizes: seq<nat>, chain: seq<nat>,
                                             bytes: seq<Byte>, k: nat, p: nat) returns (k': nat)
    requires Stored(d.blocks, chain, bytes) && ReaderAt(d, r, chain, bytes, k, p) && p + Sum(sizes) <= |bytes|
    ensures ReadSlice(d, ReadChunks(d, r, sizes), chain, bytes, k, p, k', p + Sum(sizes))
    decreases |sizes|
  {
    hide Stored, ReaderAt, ReadData, ReadSlice;
    ReaderBounds(d, r, 0, chain, bytes, k, p);
    if sizes == [] {
      k' := k;
      ReadNothing(d, r, chain, bytes, k, p);
    } else {
      var a, p1 := ReadData(d, r, sizes[0]), p + sizes[0];
      var k1 := ReadDataCorrect(d, r, sizes[0], chain, bytes, k, p);
      ReadSliceEnds(d, a, chain, bytes, k, p, k1, p1);
      k' := ReadChunksCorrect(d, a.r, sizes[1..], chain, bytes, k1, p1);
      ReadSliceCompose(d, a, ReadChunks(d, a.r, sizes[1..]), chain, bytes, k, p, k1, p1, k', p1 + Sum(sizes[1..]));
    }
  }

  /**
    Round trip: a reader opened at the first block of a stored stream returns the stream's bytes under any chunking
    of the reads, and loads each block of the chain exactly once, in order.
   */
  lemma {:induction false} StreamRoundTrip(d: Disk, chain: seq<nat>, bytes: seq<Byte>, sizes: seq<nat>, was: seq<Byte>)
    requires |was| == FB_SIZE
    requires Stored(d.blocks, chain, bytes) && bytes != [] && Sum(sizes) == |bytes|
    ensures var res := ReadChunks(d, Load(d, was, chain[0]), sizes);
            res.bytes == bytes && [chain[0]] + res.loads == chain
  {
    LoadAt(d, was, chain, bytes, 0);
    hide Stored, ReaderAt, Load, ReadChunks;
    var r := Load(d, was, chain[0]);
    var k := ReadChunksCorrect(d, r, sizes, chain, bytes, 0, 0);
    ReaderBounds(d, ReadChunks(d, r, sizes).r, 0, chain, bytes, k, |bytes|);
    SliceCons(chain, 0, |chain|);
    assert bytes[0..|bytes|] == bytes && chain[0..|chain|] == chain;
  }
}

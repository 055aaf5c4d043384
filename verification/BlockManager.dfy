/**
  The block manager and the meta-block writer and reader as objects that update their fields and buffers in place,
  each method proved against the functions the theorems are about.
 */
module BlockManager {
  import opened Bytes
  import opened Collections
  import opened MetaStream
  import opened FreeList
  import opened Checkpoint

  /** Overwriting part of a buffer. */
  ghost function Spliced(b: seq<Byte>, at: nat, data: seq<Byte>): seq<Byte>
    requires at + |data| <= |b|
  {
    b[..at] + data + b[at + |data|..]
  }

  /** `memcpy` into a block buffer. */
  method CopyInto(a: array<Byte>, at: nat, data: seq<Byte>)
    requires at + |data| <= a.Length
    modifies a
    ensures a[..] == Spliced(old(a[..]), at, data)
  {
    forall i | 0 <= i < |data| {
      a[at + i] := data[i];
    }
  }

  const VERSION_NUMBER: nat := 1

  /** The file header in front of the two database headers. */
  datatype Master = Master(magic: nat, version: nat)

  /** `create_new_database` on an existing file, which looks at the version and at nothing else of the file header. */
  method OpenExisting(master: Master, file: Disk) returns (manager: SingleFileManager?)
    ensures manager == null <==> master.version != 1
    ensures manager != null ==> fresh(manager) && manager.disk == file && manager.State() == Reopen(file)
  {
    if master.version != VERSION_NUMBER {
      return null;
    }
    manager := new SingleFileManager.Open(file);
  }

  class SingleFileManager {
    var disk: Disk
    var freeList: seq<nat>
    var usedBlocks: seq<nat>
    var maxBlock: nat
    var metaBlock: nat
    var iteration: nat
    var active: nat

    ghost function State(): Manager
      reads this
    {
      Manager(freeList, usedBlocks, maxBlock, metaBlock, iteration, active)
    }

    constructor CreateNew()
      ensures disk == Create().disk && State() == Create().m
    {
      var empty := Header(0, INVALID_BLOCK, INVALID_BLOCK, 0);
      disk := Disk(empty, empty.(iteration := 1), map[]);
      freeList, usedBlocks, maxBlock, metaBlock := [], [], 0, INVALID_BLOCK;
      iteration, active := 1, 1;
    }

    /** Reopens the file left by an earlier manager, once its version has been accepted. */
    constructor Open(file: Disk)
      ensures disk == file && State() == Reopen(file)
    {
      disk := file;
      freeList, usedBlocks, maxBlock, metaBlock := [], [], 0, 0;
      iteration, active := 0, 0;
      new;
      if file.h1.iteration > file.h2.iteration {
        active := 0;
        Initialize(file.h1);
      } else {
        active := 1;
        Initialize(file.h2);
      }
    }

    /** `initialize_manager`. */
    method Initialize(h: Header)
      requires freeList == [] && usedBlocks == []
      modifies this
      ensures disk == old(disk) && active == old(active)
      ensures var l := if h.freeListId == INVALID_BLOCK then Ids([], Reader(0, ZeroBuffer(), LINK, 0), [])
                       else LoadFreeList(disk, h.freeListId);
              State() == Manager(l.ids, l.loads, h.blockCount, h.metaBlock, h.iteration, active)
    {
      if h.freeListId != INVALID_BLOCK {
        var reader := new MetaBlockReader(this, h.freeListId);
        ghost var r0 := reader.State();
        var countBytes := reader.ReadBytes(8);
        ghost var c := ReadData(disk, r0, 8);
        var count := FromLe(countBytes);
        LoadIds(reader, count);
        assert [] + [h.freeListId] == [h.freeListId];
      }
      metaBlock := h.metaBlock;
      iteration := h.iteration;
      maxBlock := h.blockCount;
    }

    /** The loop of `initialize_manager` over the saved ids. */
    method LoadIds(reader: MetaBlockReader, count: nat)
      requires reader.Valid() && reader.manager == this && freeList == []
      modifies this`freeList, this`usedBlocks, reader, reader.buffer
      ensures var l := ReadIds(disk, old(reader.State()), count);
              freeList == l.ids && usedBlocks == old(usedBlocks) + l.loads
    {
      hide ReadIds, ReadData, FromLe, IdsSoFar;
      ghost var r0, used0 := reader.State(), usedBlocks;
      IdsStart(disk, r0, count, used0);
      var i := 0;
      while i < count
        invariant 0 <= i <= count && reader.Valid()
        invariant IdsSoFar(disk, r0, count, used0, reader.State(), count - i, freeList, usedBlocks)
      {
        IdsTurn(disk, r0, count, used0, reader.State(), count - i, freeList, usedBlocks);
        var idBytes := reader.ReadBytes(8);
        freeList := freeList + [FromLe(idBytes)];
        i := i + 1;
      }
      IdsDone(disk, r0, count, used0, reader.State(), freeList, usedBlocks);
    }

    method GetFreeBlockId() returns (id: nat)
      modifies this`freeList, this`maxBlock
      ensures Allocated(id, State()) == Alloc(old(State()))
    {
      if |freeList| > 0 {
        id := freeList[|freeList| - 1];
        freeList := freeList[..|freeList| - 1];
      } else {
        id := maxBlock;
        maxBlock := maxBlock + 1;
      }
    }

    method ReadBlock(id: nat, buffer: array<Byte>)
      requires buffer.Length == FB_SIZE
      modifies this`usedBlocks, buffer
      ensures usedBlocks == old(usedBlocks) + [id]
      ensures buffer[..] == BlockContents(disk, id, old(buffer[..]))
    {
      usedBlocks := usedBlocks + [id];
      var contents := BlockContents(disk, id, buffer[..]);
      CopyInto(buffer, 0, contents);
    }

    method WriteBlock(id: nat, buffer: array<Byte>)
      modifies this`disk
      ensures disk == ApplyOne(old(disk), BlockWrite(id, buffer[..]))
    {
      disk := disk.(blocks := disk.blocks[id := buffer[..]]);
    }

    /** `write_header` with the intended writer loop and block count. */
    method WriteDatabaseHeader(meta: nat)
      modifies this
      ensures var c := WriteHeader(old(State()), meta, true);
              State() == c.m && disk == Apply(old(disk), c.log)
    {
      ghost var m0, d0 := State(), disk;
      ghost var log: seq<DiskWrite> := [];
      iteration := iteration + 1;
      var h := Header(iteration, meta, INVALID_BLOCK, 0);
      if |usedBlocks| > 0 {
        var writer := new MetaBlockWriter(this);
        h := h.(freeListId := writer.id);
        log := SaveList(writer);
        SaveIgnoresIteration(m0, iteration);
      }
      h := h.(blockCount := maxBlock);
      ghost var before := disk;
      if active == 1 {
        disk := disk.(h1 := h);
      } else {
        disk := disk.(h2 := h);
      }
      ApplyConcat(d0, log, [HeaderWrite(if active == 1 then 0 else 1, h)]);
      ApplySingle(before, HeaderWrite(if active == 1 then 0 else 1, h));
      active := if active == 1 then 0 else 1;
      metaBlock := meta;
      freeList := usedBlocks;
      usedBlocks := [];
    }

    /** The loop of `write_header` over the used blocks, and the flush when the writer is torn down. */
    method SaveList(writer: MetaBlockWriter) returns (ghost log: seq<DiskWrite>)
      requires writer.Valid() && writer.manager == this
      modifies this`disk, this`freeList, this`maxBlock, writer, writer.buffer
      ensures var r := WriteChunks(old(State()), old(writer.State()), FreeListChunks(usedBlocks));
              && State() == r.m
              && log == r.log + FlushLog(r.w)
              && disk == Apply(old(disk), log)
    {
      hide FreeListChunks, WriteChunks, WriteData, Apply, Le;
      ghost var m0, w0, d0 := State(), writer.State(), disk;
      ghost var chunks := FreeListChunks(usedBlocks);
      ghost var ids: seq<nat> := [];
      log := [];
      FreeListChunksStart(usedBlocks);
      ghost var ids1, log1 := writer.WriteBytes(Le(|usedBlocks|, 8));
      ids, log := ids1, log1;
      assert chunks[..1] == [Le(|usedBlocks|, 8)];
      WriteChunksOne(m0, w0, Le(|usedBlocks|, 8));
      var i := 0;
      while i < |usedBlocks|
        invariant 0 <= i <= |usedBlocks|
        invariant usedBlocks == m0.usedBlocks && writer.Valid()
        invariant WriteChunks(m0, w0, chunks[..i + 1]) == Written(State(), writer.State(), ids, log)
        invariant disk == Apply(d0, log)
      {
        ghost var m1, w1, l1, i1 := State(), writer.State(), log, ids;
        ids1, log1 := writer.WriteBytes(Le(usedBlocks[i], 8));
        ids, log := i1 + ids1, l1 + log1;
        ApplyConcat(d0, l1, log1);
        FreeListChunkAt(usedBlocks, i);
        assert chunks[..i + 2] == chunks[..i + 1] + [chunks[i + 1]];
        WriteChunksSnoc(m0, w0, chunks[..i + 1], chunks[i + 1]);
        i := i + 1;
      }
      assert chunks[..i + 1] == chunks;
      ghost var l2, w2 := log, writer.State();
      writer.FlushBlock();
      log := l2 + FlushLog(w2);
      ApplyConcat(d0, l2, FlushLog(w2));
    }
  }

  class MetaBlockWriter {
    const manager: SingleFileManager
    const buffer: array<Byte>
    var id: nat
    var offset: nat

    ghost predicate Valid()
      reads this, buffer
    {
      buffer.Length == FB_SIZE && LINK <= offset <= FB_SIZE
    }

    ghost function State(): (w: Writer)
      requires Valid()
      reads this, buffer
      ensures WriterShape(w)
    {
      Writer(id, buffer[..], offset)
    }

    constructor (manager: SingleFileManager)
      modifies manager`freeList, manager`maxBlock
      ensures Valid() && this.manager == manager && fresh(buffer)
      ensures var r := OpenWriter(old(manager.State()));
              manager.State() == r.m && State() == r.w
    {
      this.manager := manager;
      buffer := new Byte[FB_SIZE](_ => 0);
      id := 0;
      offset := LINK;
      new;
      id := manager.GetFreeBlockId();
      assert buffer[..] == ZeroBuffer();
    }

    /** `metaBlockWriter_write_data` with the intended loop. */
    method WriteBytes(data: seq<Byte>) returns (ghost ids: seq<nat>, ghost log: seq<DiskWrite>)
      requires Valid()
      modifies this, buffer, manager`disk, manager`freeList, manager`maxBlock
      ensures Valid()
      ensures Written(manager.State(), State(), ids, log) == WriteData(old(manager.State()), old(State()), data)
      ensures manager.disk == Apply(old(manager.disk), log)
    {
      hide WriteData, Alloc, FullBuffer, Apply;
      ids, log := [], [];
      ghost var all := WriteData(manager.State(), State(), data);
      ghost var d0 := manager.disk;
      assert [] + all.ids == all.ids && [] + all.log == all.log;
      ApplyNothing(d0);
      var rest := data;
      while offset + |rest| > FB_SIZE
        invariant Valid()
        invariant var r := WriteData(manager.State(), State(), rest);
                  all == Written(r.m, r.w, ids + r.ids, log + r.log)
        invariant manager.disk == Apply(d0, log)
        decreases |rest|, offset
      {
        ghost var ids0, log0, m, w, d1 := ids, log, manager.State(), State(), manager.disk;
        WriteDataUnroll(d1, m, w, rest);
        var copy := FB_SIZE - offset;
        ghost var turn := RollBlock(rest);
        ids, log := ids0 + [id], log0 + [turn];
        rest := rest[copy..];
        ApplyConcat(d0, log0, [turn]);
        ghost var r := WriteData(manager.State(), State(), rest);
        Assoc(ids0, [id], r.ids);
        Assoc(log0, [turn], r.log);
      }
      WriteDataFits(manager.State(), State(), rest);
      CopyInto(buffer, offset, rest);
      offset := offset + |rest|;
      assert ids + [] == ids && log + [] == log;
    }

    /** One turn of the loop: fill the block, link it to a new one, flush it and go on in the new one. */
    method RollBlock(data: seq<Byte>) returns (ghost turn: DiskWrite)
      requires Valid() && offset + |data| > FB_SIZE
      modifies this, buffer, manager`disk, manager`freeList, manager`maxBlock
      ensures var a := Alloc(old(manager.State()));
              var full := FullBuffer(old(State()), data, a.id);
              && Valid() && State() == Writer(a.id, full, LINK)
              && manager.State() == a.m
              && turn == BlockWrite(old(id), full)
              && manager.disk == Apply(old(manager.disk), [turn])
    {
      ghost var w, d := State(), manager.disk;
      CopyInto(buffer, offset, data[..FB_SIZE - offset]);
      var next := manager.GetFreeBlockId();
      CopyInto(buffer, 0, Le(next, LINK));
      RollBuffer(w, data, next);
      manager.WriteBlock(id, buffer);
      turn := BlockWrite(id, buffer[..]);
      ApplySingle(d, turn);
      id := next;
      offset := LINK;
    }

    method FlushBlock()
      requires Valid()
      modifies this`offset, manager`disk
      ensures Valid() && State() == Flush(old(State()))
      ensures manager.disk == Apply(old(manager.disk), FlushLog(old(State())))
    {
      if offset > LINK {
        ApplySingle(manager.disk, BlockWrite(id, buffer[..]));
        manager.WriteBlock(id, buffer);
        offset := LINK;
      }
    }
  }

  class MetaBlockReader {
    const manager: SingleFileManager
    const buffer: array<Byte>
    var id: nat
    var offset: nat
    var next: nat

    ghost predicate Valid()
      reads this, buffer
    {
      buffer.Length == FB_SIZE && LINK <= offset <= FB_SIZE
    }

    ghost function State(): (r: Reader)
      requires Valid()
      reads this, buffer
      ensures ReaderShape(r)
    {
      Reader(id, buffer[..], offset, next)
    }

    constructor (manager: SingleFileManager, first: nat)
      modifies manager`usedBlocks
      ensures Valid() && this.manager == manager && fresh(buffer)
      ensures State() == Load(manager.disk, ZeroBuffer(), first)
      ensures manager.usedBlocks == old(manager.usedBlocks) + [first]
    {
      this.manager := manager;
      buffer := new Byte[FB_SIZE](_ => 0);
      id, offset, next := 0, 0, 0;
      new;
      assert buffer[..] == ZeroBuffer();
      LoadBlock(first);
    }

    /** `metaBlockReader_read_new_block`. */
    method LoadBlock(block: nat)
      requires buffer.Length == FB_SIZE
      modifies this, buffer, manager`usedBlocks
      ensures Valid() && offset == LINK && State() == Load(manager.disk, old(buffer[..]), block)
      ensures manager.usedBlocks == old(manager.usedBlocks) + [block]
    {
      id := block;
      manager.ReadBlock(block, buffer);
      next := FromLe(buffer[..LINK]);
      offset := LINK;
      assert buffer[..][..LINK] == buffer[..LINK];
    }

    /** `metaBlockReader_read_data`. */
    method ReadBytes(n: nat) returns (bytes: seq<Byte>)
      requires Valid()
      modifies this, buffer, manager`usedBlocks
      ensures Valid()
      ensures var res := ReadData(manager.disk, old(State()), n);
              && bytes == res.bytes
              && State() == res.r
              && manager.usedBlocks == old(manager.usedBlocks) + res.loads
    {
      hide ReadData, Load, ReadSoFar;
      ghost var d, r0, used0 := manager.disk, State(), manager.usedBlocks;
      bytes := [];
      var left: nat := n;
      ReadStart(d, r0, n, used0);
      while offset + left > FB_SIZE
        invariant Valid()
        invariant ReadSoFar(d, r0, n, used0, State(), left, bytes, manager.usedBlocks)
        decreases left, offset
      {
        ReadTurn(d, r0, n, used0, State(), left, bytes, manager.usedBlocks);
        left := left - (FB_SIZE - offset);
        var part := TakeRest();
        bytes := bytes + part;
      }
      ReadDone(d, r0, n, used0, State(), left, bytes, manager.usedBlocks);
      bytes := bytes + buffer[..][offset..offset + left];
      offset := offset + left;
    }

    /** Copies out what is left in the block and moves on to the next one. */
    method TakeRest() returns (part: seq<Byte>)
      requires Valid()
      modifies this, buffer, manager`usedBlocks
      ensures Valid() && offset == LINK
      ensures part == old(State()).buf[old(offset)..]
      ensures State() == Load(manager.disk, old(State()).buf, old(next))
      ensures manager.usedBlocks == old(manager.usedBlocks) + [old(next)]
    {
      part := buffer[..][offset..];
      LoadBlock(next);
    }
  }

  // ---------------------------------------------------------------- facts the loops use

  lemma {:induction false} ApplyNothing(d: Disk)
    ensures Apply(d, []) == d
  {
  }

  lemma {:induction false} WriteDataFits(m: Manager, w: Writer, data: seq<Byte>)
    requires WriterShape(w) && w.offset + |data| <= FB_SIZE
    ensures WriteData(m, w, data) == Written(m, Writer(w.id, Spliced(w.buf, w.offset, data), w.offset + |data|), [], [])
  {
  }

  lemma {:induction false} RollBuffer(w: Writer, data: seq<Byte>, next: nat)
    requires WriterShape(w) && w.offset + |data| > FB_SIZE
    ensures Spliced(Spliced(w.buf, w.offset, data[..FB_SIZE - w.offset]), 0, Le(next, LINK))
         == FullBuffer(w, data, next)
  {
  }

  /**
    A read of `n` bytes that started at `r0` has `left` bytes to go from `r`, has copied out `bytes`, and has brought
    the manager's used blocks from `used0` to `used`.
   */
  ghost predicate ReadSoFar(d: Disk, r0: Reader, n: nat, used0: seq<nat>,
                            r: Reader, left: nat, bytes: seq<Byte>, used: seq<nat>)
    requires ReaderShape(r0) && ReaderShape(r)
  {
    var all, rest := ReadData(d, r0, n), ReadData(d, r, left);
    all.bytes == bytes + rest.bytes && all.r == rest.r && used0 + all.loads == used + rest.loads
  }

  lemma ReadStart(d: Disk, r0: Reader, n: nat, used0: seq<nat>)
    requires ReaderShape(r0)
    ensures ReadSoFar(d, r0, n, used0, r0, n, [], used0)
  {
    hide ReadData;
    assert [] + ReadData(d, r0, n).bytes == ReadData(d, r0, n).bytes;
  }

  lemma ReadTurn(d: Disk, r0: Reader, n: nat, used0: seq<nat>, r: Reader, left: nat, bytes: seq<Byte>, used: seq<nat>)
    requires ReaderShape(r0) && ReaderShape(r) && r.offset + left > FB_SIZE
    requires ReadSoFar(d, r0, n, used0, r, left, bytes, used)
    ensures ReadSoFar(d, r0, n, used0, Load(d, r.buf, r.next), left - (FB_SIZE - r.offset),
                      bytes + r.buf[r.offset..], used + [r.next])
  {
    var rest := ReadData(d, Load(d, r.buf, r.next), left - (FB_SIZE - r.offset));
    assert ReadData(d, r, left) == Read(r.buf[r.offset..] + rest.bytes, rest.r, [r.next] + rest.loads);
    hide ReadData, Load;
    Assoc(bytes, r.buf[r.offset..], rest.bytes);
    Assoc(used, [r.next], rest.loads);
  }

  lemma {:induction false} ReadDone(d: Disk, r0: Reader, n: nat, used0: seq<nat>, r: Reader, left: nat,
                                    bytes: seq<Byte>, used: seq<nat>)
    requires ReaderShape(r0) && ReaderShape(r) && r.offset + left <= FB_SIZE
    requires ReadSoFar(d, r0, n, used0, r, left, bytes, used)
    ensures var all := ReadData(d, r0, n);
            && all.bytes == bytes + r.buf[r.offset..r.offset + left]
            && all.r == r.(offset := r.offset + left)
            && used0 + all.loads == used
  {
    assert used + [] == used;
  }

  /** The same for the loop over the saved ids. */
  ghost predicate IdsSoFar(d: Disk, r0: Reader, n: nat, used0: seq<nat>,
                           r: Reader, left: nat, ids: seq<nat>, used: seq<nat>)
    requires ReaderShape(r0) && ReaderShape(r)
  {
    var all, rest := ReadIds(d, r0, n), ReadIds(d, r, left);
    all.ids == ids + rest.ids && used0 + all.loads == used + rest.loads
  }

  lemma IdsStart(d: Disk, r0: Reader, n: nat, used0: seq<nat>)
    requires ReaderShape(r0)
    ensures IdsSoFar(d, r0, n, used0, r0, n, [], used0)
  {
    hide ReadIds;
    assert [] + ReadIds(d, r0, n).ids == ReadIds(d, r0, n).ids;
  }

  lemma {:induction false} IdsTurn(d: Disk, r0: Reader, n: nat, used0: seq<nat>, r: Reader, left: nat, ids: seq<nat>,
                                   used: seq<nat>)
    requires ReaderShape(r0) && ReaderShape(r) && left > 0
    requires IdsSoFar(d, r0, n, used0, r, left, ids, used)
    ensures var a := ReadData(d, r, 8);
            IdsSoFar(d, r0, n, used0, a.r, left - 1, ids + [FromLe(a.bytes)], used + a.loads)
  {
    var a := ReadData(d, r, 8);
    var rest := ReadIds(d, a.r, left - 1);
    assert ReadIds(d, r, left) == Ids([FromLe(a.bytes)] + rest.ids, rest.r, a.loads + rest.loads);
    hide ReadData, ReadIds, FromLe;
    Assoc(ids, [FromLe(a.bytes)], rest.ids);
    Assoc(used, a.loads, rest.loads);
  }

  lemma {:induction false} IdsDone(d: Disk, r0: Reader, n: nat, used0: seq<nat>, r: Reader, ids: seq<nat>,
                                   used: seq<nat>)
    requires ReaderShape(r0) && ReaderShape(r) && IdsSoFar(d, r0, n, used0, r, 0, ids, used)
    ensures ReadIds(d, r0, n).ids == ids && used0 + ReadIds(d, r0, n).loads == used
  {
    assert ids + [] == ids && used + [] == used;
  }

  lemma {:induction false} WriteChunksOne(m: Manager, w: Writer, chunk: seq<Byte>)
    requires WriterShape(w)
    ensures WriteChunks(m, w, [chunk]) == WriteData(m, w, chunk)
  {
    var r := WriteData(m, w, chunk);
    var none := [chunk][1..];
    assert WriteChunks(r.m, r.w, none) == Written(r.m, r.w, [], []);
    assert r.ids + [] == r.ids && r.log + [] == r.log;
  }

  lemma {:induction false} WriteChunksSnoc(m: Manager, w: Writer, chunks: seq<seq<Byte>>, chunk: seq<Byte>)
    requires WriterShape(w)
    ensures var r := WriteChunks(m, w, chunks);
            var s := WriteData(r.m, r.w, chunk);
            WriteChunks(m, w, chunks + [chunk]) == Written(s.m, s.w, r.ids + s.ids, r.log + s.log)
    decreases |chunks|
  {
    var r := WriteChunks(m, w, chunks);
    var s := WriteData(r.m, r.w, chunk);
    if chunks == [] {
      assert chunks + [chunk] == [chunk];
      WriteChunksOne(m, w, chunk);
      assert [] + s.ids == s.ids && [] + s.log == s.log;
    } else {
      var r1 := WriteData(m, w, chunks[0]);
      var r2 := WriteChunks(r1.m, r1.w, chunks[1..]);
      WriteChunksSnoc(r1.m, r1.w, chunks[1..], chunk);
      assert (chunks + [chunk])[1..] == chunks[1..] + [chunk];
      Assoc(r1.ids, r2.ids, s.ids);
      Assoc(r1.log, r2.log, s.log);
    }
  }

  lemma {:induction false} IdChunksIndex(ids: seq<nat>, i: nat)
    requires i < |ids|
    ensures IdChunks(ids)[i] == Le(ids[i], 8)
    decreases |ids|
  {
    if i > 0 {
      IdChunksIndex(ids[1..], i - 1);
    }
  }

  lemma {:induction false} FreeListChunksStart(ids: seq<nat>)
    ensures |FreeListChunks(ids)| == |ids| + 1 && FreeListChunks(ids)[..1] == [Le(|ids|, 8)]
  {
  }

  lemma FreeListChunkAt(ids: seq<nat>, i: nat)
    requires i < |ids|
    ensures |FreeListChunks(ids)| == |ids| + 1 && FreeListChunks(ids)[i + 1] == Le(ids[i], 8)
  {
    IdChunksIndex(ids, i);
  }

  /** What is saved does not depend on the iteration, which `write_header` has already raised. */
  lemma SaveIgnoresIteration(m: Manager, iteration: nat)
    ensures var a := SaveFreeList(m);
            var b := SaveFreeList(m.(iteration := iteration));
            b == a.(m := a.m.(iteration := iteration))
  {
    if m.usedBlocks != [] {
      var o := OpenWriter(m);
      ChunksIgnoreIteration(o.m, o.w, FreeListChunks(m.usedBlocks), iteration);
    }
  }

  lemma {:induction false} ChunksIgnoreIteration(m: Manager, w: Writer, chunks: seq<seq<Byte>>, iteration: nat)
    requires WriterShape(w)
    ensures var a := WriteChunks(m, w, chunks);
            WriteChunks(m.(iteration := iteration), w, chunks) == a.(m := a.m.(iteration := iteration))
    decreases |chunks|
  {
    if chunks != [] {
      DataIgnoresIteration(m, w, chunks[0], iteration);
      var r := WriteData(m, w, chunks[0]);
      ChunksIgnoreIteration(r.m, r.w, chunks[1..], iteration);
    }
  }

  lemma {:induction false} DataIgnoresIteration(m: Manager, w: Writer, data: seq<Byte>, iteration: nat)
    requires WriterShape(w)
    ensures var a := WriteData(m, w, data);
            WriteData(m.(iteration := iteration), w, data) == a.(m := a.m.(iteration := iteration))
    decreases |data|, w.offset
  {
    if w.offset + |data| > FB_SIZE {
      var a := Alloc(m);
      DataIgnoresIteration(a.m, Writer(a.id, FullBuffer(w, data, a.id), LINK), data[FB_SIZE - w.offset..], iteration);
    }
  }
}

/** Writing and reading table records through the meta-block writer and reader, as the source does, field by field. */
module TableCatalog {
  import opened Bytes
  import opened Collections
  import opened MetaStream
  import opened BlockManager
  import opened TableRecord

  /** A writer that started from `m0` and `w0` has made the writes `chunks`; the disk went from `d0` to `d`. */
  ghost predicate Wrote(m0: Manager, w0: Writer, d0: Disk, chunks: seq<seq<Byte>>, m: Manager, w: Writer,
                        ids: seq<nat>, log: seq<DiskWrite>, d: Disk)
    requires WriterShape(w0)
  {
    WriteChunks(m0, w0, chunks) == Written(m, w, ids, log) && d == Apply(d0, log)
  }

  lemma WroteNothing(m: Manager, w: Writer, d: Disk)
    requires WriterShape(w)
    ensures Wrote(m, w, d, [], m, w, [], [], d)
  {
  }

  lemma {:induction false} WroteMore(m0: Manager, w0: Writer, d0: Disk, chunks: seq<seq<Byte>>, m: Manager,
                                     w: Writer, ids: seq<nat>, log: seq<DiskWrite>, d: Disk, chunk: seq<Byte>,
                                     d': Disk)
    requires WriterShape(w0) && WriterShape(w) && Wrote(m0, w0, d0, chunks, m, w, ids, log, d)
    requires d' == Apply(d, WriteData(m, w, chunk).log)
    ensures var s := WriteData(m, w, chunk);
            Wrote(m0, w0, d0, chunks + [chunk], s.m, s.w, ids + s.ids, log + s.log, d')
  {
    WriteChunksSnoc(m0, w0, chunks, chunk);
    ApplyConcat(d0, log, WriteData(m, w, chunk).log);
  }

  lemma Snoc2<T>(done: seq<T>, a: T, b: T)
    ensures done + [a] + [b] == done + [a, b]
  {
  }

  /** The part of the checkpoint manager that writes table records, with the history of its writes. */
  class CheckpointManager {
    const writer: MetaBlockWriter
    ghost const m0: Manager
    ghost const w0: Writer
    ghost const d0: Disk
    ghost var chunks: seq<seq<Byte>>
    ghost var ids: seq<nat>
    ghost var log: seq<DiskWrite>

    ghost predicate Valid()
      reads this, writer, writer.buffer, writer.manager
    {
      && writer.Valid() && WriterShape(w0)
      && Wrote(m0, w0, d0, chunks, writer.manager.State(), writer.State(), ids, log, writer.manager.disk)
    }

    constructor (writer: MetaBlockWriter)
      requires writer.Valid()
      ensures Valid() && this.writer == writer && chunks == []
      ensures m0 == writer.manager.State() && w0 == writer.State() && d0 == writer.manager.disk
    {
      this.writer := writer;
      m0, w0, d0 := writer.manager.State(), writer.State(), writer.manager.disk;
      chunks, ids, log := [], [], [];
      new;
      WroteNothing(m0, w0, d0);
    }

    /** `SERIALIZER_WRITE`. */
    method Put(data: seq<Byte>)
      requires Valid()
      modifies this, writer, writer.buffer, writer.manager`disk, writer.manager`freeList, writer.manager`maxBlock
      ensures Valid() && chunks == old(chunks) + [data]
    {
      hide Wrote, WriteData;
      ghost var m, w, d, ids', log' := writer.manager.State(), writer.State(), writer.manager.disk, ids, log;
      ghost var more, moreLog := writer.WriteBytes(data);
      WroteMore(m0, w0, d0, chunks, m, w, ids', log', d, data, writer.manager.disk);
      chunks, ids, log := chunks + [data], ids' + more, log' + moreLog;
    }

    method PutString(s: seq<Byte>)
      requires Valid()
      modifies this, writer, writer.buffer, writer.manager`disk, writer.manager`freeList, writer.manager`maxBlock
      ensures Valid() && chunks == old(chunks) + StringChunks(s)
    {
      Put(Le(|s|, 8));
      Put(s);
      Snoc2(old(chunks), Le(|s|, 8), s);
    }

    method PutColumn(c: Column)
      requires Valid()
      modifies this, writer, writer.buffer, writer.manager`disk, writer.manager`freeList, writer.manager`maxBlock
      ensures Valid() && chunks == old(chunks) + ColumnChunks(c)
    {
      ghost var before := chunks;
      PutString(c.name);
      match c.kind
      case Plain(tag) =>
        Put([tag]);
        Assoc(before, StringChunks(c.name), [[tag]]);
      case Vector(dim) =>
        Put([SQLT_VECTOR]);
        Put(PutI16(dim));
        Snoc2(before + StringChunks(c.name), [SQLT_VECTOR], PutI16(dim));
        Assoc(before, StringChunks(c.name), [[SQLT_VECTOR], PutI16(dim)]);
    }

    /** `checkpointManager_write_table_catalog`. */
    method WriteTable(t: TableInfo)
      requires Valid()
      modifies this, writer, writer.buffer, writer.manager`disk, writer.manager`freeList, writer.manager`maxBlock
      ensures Valid() && chunks == old(chunks) + TableChunks(t)
    {
      hide Wrote, StringChunks, ColumnChunks, ColumnsChunks;
      ghost var before := chunks;
      PutString(t.schema);
      PutString(t.table);
      Put(Le(|t.columns|, 4));
      ghost var front := chunks;
      var i := 0;
      assert t.columns[0..] == t.columns;
      while i < |t.columns|
        invariant 0 <= i <= |t.columns| && Valid()
        invariant chunks + ColumnsChunks(t.columns[i..]) == front + ColumnsChunks(t.columns)
      {
        ColumnsChunksStep(t.columns, i);
        ghost var now := chunks;
        PutColumn(t.columns[i]);
        Assoc(now, ColumnChunks(t.columns[i]), ColumnsChunks(t.columns[i + 1..]));
        i := i + 1;
      }
      ColumnsChunksStep(t.columns, i);
      assert chunks + [] == chunks;
      Nested(before, StringChunks(t.schema), StringChunks(t.table), [Le(|t.columns|, 4)], ColumnsChunks(t.columns));
    }
  }

  lemma ColumnsChunksStep(cs: seq<Column>, i: nat)
    requires i <= |cs|
    ensures i == |cs| ==> ColumnsChunks(cs[i..]) == []
    ensures i < |cs| ==> ColumnsChunks(cs[i..]) == ColumnChunks(cs[i]) + ColumnsChunks(cs[i + 1..])
  {
    if i < |cs| {
      assert cs[i..][1..] == cs[i + 1..];
    }
  }

  lemma Nested<T>(a: seq<T>, b: seq<T>, c: seq<T>, d: seq<T>, e: seq<T>)
    ensures a + b + c + d + e == a + (b + (c + (d + e)))
  {
  }

  // ---------------------------------------------------------------- reading

  /** `DESERIALIZER_READ_STRING`. */
  method ReadString(reader: MetaBlockReader) returns (s: seq<Byte>)
    requires reader.Valid()
    modifies reader, reader.buffer, reader.manager`usedBlocks
    ensures reader.Valid()
    ensures Got(s, reader.State()) == GetString(reader.manager.disk, old(reader.State()))
  {
    hide ReadData, FromLe;
    var length := reader.ReadBytes(8);
    s := reader.ReadBytes(FromLe(length));
  }

  method ReadKind(reader: MetaBlockReader) returns (kind: ColumnType)
    requires reader.Valid()
    modifies reader, reader.buffer, reader.manager`usedBlocks
    ensures reader.Valid()
    ensures Got(kind, reader.State()) == GetKind(reader.manager.disk, old(reader.State()))
  {
    hide ReadData, FromLe;
    var tag := reader.ReadBytes(1);
    if tag[0] == SQLT_VECTOR {
      var dim := reader.ReadBytes(2);
      kind := Vector(AsI16(FromLe(dim)));
    } else {
      kind := Plain(tag[0]);
    }
  }

  /** Reading the columns has got `done` so far, and the rest is read from `r`. */
  ghost predicate ColumnsSoFar(d: Disk, r0: Reader, n: nat, done: seq<Column>, r: Reader, i: nat)
    requires ReaderShape(r0) && ReaderShape(r)
  {
    var all, rest := GetColumns(d, r0, 0, n), GetColumns(d, r, i, n);
    all == Got(done + rest.value, rest.r)
  }

  lemma ColumnsStart(d: Disk, r0: Reader, n: nat)
    requires ReaderShape(r0)
    ensures ColumnsSoFar(d, r0, n, [], r0, 0)
  {
    hide GetColumns;
    assert [] + GetColumns(d, r0, 0, n).value == GetColumns(d, r0, 0, n).value;
  }

  lemma ColumnsTurn(d: Disk, r0: Reader, n: nat, done: seq<Column>, r: Reader, i: nat)
    requires ReaderShape(r0) && ReaderShape(r) && i < n && ColumnsSoFar(d, r0, n, done, r, i)
    ensures var a := GetColumn(d, r, i); ColumnsSoFar(d, r0, n, done + [a.value], a.r, i + 1)
  {
    var a := GetColumn(d, r, i);
    var rest := GetColumns(d, a.r, i + 1, n);
    assert GetColumns(d, r, i, n) == Got([a.value] + rest.value, rest.r);
    hide GetColumns, GetColumn;
    Assoc(done, [a.value], rest.value);
  }

  lemma {:induction false} ColumnsDone(d: Disk, r0: Reader, n: nat, done: seq<Column>, r: Reader)
    requires ReaderShape(r0) && ReaderShape(r) && ColumnsSoFar(d, r0, n, done, r, n)
    ensures GetColumns(d, r0, 0, n) == Got(done, r)
  {
    assert done + [] == done;
  }

  /** The loop of `createTableInfo_deserialize`. */
  method ReadColumns(reader: MetaBlockReader, n: nat) returns (columns: seq<Column>)
    requires reader.Valid()
    modifies reader, reader.buffer, reader.manager`usedBlocks
    ensures reader.Valid()
    ensures Got(columns, reader.State()) == GetColumns(reader.manager.disk, old(reader.State()), 0, n)
  {
    hide GetString, GetKind, GetColumns, ColumnsSoFar;
    ghost var d, r0 := reader.manager.disk, reader.State();
    columns := [];
    ColumnsStart(d, r0, n);
    var i := 0;
    while i < n
      invariant 0 <= i <= n && reader.Valid()
      invariant ColumnsSoFar(d, r0, n, columns, reader.State(), i)
    {
      ColumnsTurn(d, r0, n, columns, reader.State(), i);
      var name := ReadString(reader);
      var kind := ReadKind(reader);
      columns := columns + [Column(name, i, kind)];
      i := i + 1;
    }
    ColumnsDone(d, r0, n, columns, reader.State());
  }

  /** `createTableInfo_deserialize`. */
  method ReadTable(reader: MetaBlockReader) returns (t: TableInfo)
    requires reader.Valid()
    modifies reader, reader.buffer, reader.manager`usedBlocks
    ensures reader.Valid()
    ensures Got(t, reader.State()) == GetTable(reader.manager.disk, old(reader.State()))
  {
    hide GetString, GetColumns, ReadData, FromLe;
    var schema := ReadString(reader);
    var table := ReadString(reader);
    var count := reader.ReadBytes(4);
    var columns := ReadColumns(reader, FromLe(count));
    t := TableInfo(schema, table, columns);
  }
}

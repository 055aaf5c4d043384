/**
  Table records: what a checkpoint writes for a table, the decoder that reads it back from a meta-block stream, and
  the round trip between them.
 */
module TableRecord {
  import opened Bytes
  import opened Collections
  import opened MetaStream

  const SQLT_VECTOR: Byte := 8

  /** A column's SQL type, with the options that only vectors have. */
  datatype ColumnType = Plain(tag: Byte) | Vector(dim: int)

  /** Names are the bytes of a C string before its terminator. */
  datatype Column = Column(name: seq<Byte>, oid: nat, kind: ColumnType)

  datatype TableInfo = TableInfo(schema: seq<Byte>, table: seq<Byte>, columns: seq<Column>)

  predicate ColumnOk(c: Column)
  {
    && |c.name| < U64_LIMIT
    && (if c.kind.Plain? then c.kind.tag != SQLT_VECTOR else -0x8000 <= c.kind.dim < 0x8000)
  }

  predicate TableOk(t: TableInfo)
  {
    && |t.schema| < U64_LIMIT && |t.table| < U64_LIMIT
    && forall i :: 0 <= i < |t.columns| ==> ColumnOk(t.columns[i])
  }

  // ---------------------------------------------------------------- encoding

  /** A 16-bit integer in two's complement. */
  function PutI16(x: int): (bs: seq<Byte>)
    ensures |bs| == 2
  {
    Le(x % 0x1_0000, 2)
  }

  function AsI16(n: nat): int
  {
    if n < 0x8000 then n else n - 0x1_0000
  }

  lemma I16RoundTrip(x: int)
    requires -0x8000 <= x < 0x8000
    ensures AsI16(FromLe(PutI16(x))) == x
  {
    FromLeOfLe(x % 0x1_0000, 2);
    Pow256Widths();
  }

  function StringBytes(s: seq<Byte>): seq<Byte>
  {
    Le(|s|, 8) + s
  }

  function KindBytes(kind: ColumnType): seq<Byte>
  {
    match kind
    case Plain(tag) => [tag]
    case Vector(dim) => [SQLT_VECTOR] + PutI16(dim)
  }

  function ColumnBytes(c: Column): seq<Byte>
  {
    StringBytes(c.name) + KindBytes(c.kind)
  }

  function ColumnsBytes(cs: seq<Column>): seq<Byte>
  {
    if cs == [] then [] else ColumnBytes(cs[0]) + ColumnsBytes(cs[1..])
  }

  /** The bytes of one table record. */
  function TableBytes(t: TableInfo): seq<Byte>
  {
    StringBytes(t.schema) + (StringBytes(t.table) + (Le(|t.columns|, 4) + ColumnsBytes(t.columns)))
  }

  function TablesBytes(ts: seq<TableInfo>): seq<Byte>
  {
    if ts == [] then [] else TableBytes(ts[0]) + TablesBytes(ts[1..])
  }

  // ---------------------------------------------------------------- decoding

  datatype Got<T> = Got(value: T, r: Reader)

  /** `DESERIALIZER_READ_STRING`. */
  function GetString(d: Disk, r: Reader): (g: Got<seq<Byte>>)
    requires ReaderShape(r)
    ensures ReaderShape(g.r)
  {
    var a := ReadData(d, r, 8);
    var b := ReadData(d, a.r, FromLe(a.bytes));
    Got(b.bytes, b.r)
  }

  function GetKind(d: Disk, r: Reader): (g: Got<ColumnType>)
    requires ReaderShape(r)
    ensures ReaderShape(g.r)
  {
    var a := ReadData(d, r, 1);
    if a.bytes[0] == SQLT_VECTOR then
      var b := ReadData(d, a.r, 2);
      Got(Vector(AsI16(FromLe(b.bytes))), b.r)
    else
      Got(Plain(a.bytes[0]), a.r)
  }

  function GetColumn(d: Disk, r: Reader, i: nat): (g: Got<Column>)
    requires ReaderShape(r)
    ensures ReaderShape(g.r)
  {
    var name := GetString(d, r);
    var kind := GetKind(d, name.r);
    Got(Column(name.value, i, kind.value), kind.r)
  }

  /** Columns number `i` to `n`. */
  function GetColumns(d: Disk, r: Reader, i: nat, n: nat): (g: Got<seq<Column>>)
    requires ReaderShape(r)
    ensures ReaderShape(g.r)
    decreases n - i
  {
    if i >= n then Got([], r)
    else
      var a := GetColumn(d, r, i);
      var b := GetColumns(d, a.r, i + 1, n);
      Got([a.value] + b.value, b.r)
  }

  /** `createTableInfo_deserialize`. */
  function GetTable(d: Disk, r: Reader): (g: Got<TableInfo>)
    requires ReaderShape(r)
    ensures ReaderShape(g.r)
  {
    var schema := GetString(d, r);
    var table := GetString(d, schema.r);
    var n := ReadData(d, table.r, 4);
    var columns := GetColumns(d, n.r, 0, FromLe(n.bytes));
    Got(TableInfo(schema.value, table.value, columns.value), columns.r)
  }

  function GetTables(d: Disk, r: Reader, n: nat): (g: Got<seq<TableInfo>>)
    requires ReaderShape(r)
    ensures ReaderShape(g.r)
    decreases n
  {
    if n == 0 then Got([], r)
    else
      var a := GetTable(d, r);
      var b := GetTables(d, a.r, n - 1);
      Got([a.value] + b.value, b.r)
  }

  // ---------------------------------------------------------------- positions in a stored stream

  /** The reader stands at position `p` of a stored stream. */
  ghost predicate At(d: Disk, r: Reader, chain: seq<nat>, bytes: seq<Byte>, p: nat)
  {
    Stored(d.blocks, chain, bytes) && exists k: nat :: ReaderAt(d, r, chain, bytes, k, p)
  }

  /** `part` is in the stream at position `p`. */
  ghost predicate Here(bytes: seq<Byte>, p: nat, part: seq<Byte>)
  {
    p + |part| <= |bytes| && bytes[p..p + |part|] == part
  }

  lemma HereSplit(bytes: seq<Byte>, p: nat, a: seq<Byte>, b: seq<Byte>)
    requires Here(bytes, p, a + b)
    ensures Here(bytes, p, a) && Here(bytes, p + |a|, b)
  {
    SliceOfSlice(bytes, p, p + |a + b|, p, p + |a|);
    SliceOfSlice(bytes, p, p + |a + b|, p + |a|, p + |a + b|);
    assert (a + b)[..|a|] == a && (a + b)[|a|..] == b;
  }

  /**
    A record: eight bytes of length and the schema's name, the same for the table's name, four bytes with the number of
    columns; and the first column: the same for its name, a tag, and for a vector, whose tag is 8, two bytes more.
   */
  lemma RecordLayout(t: TableInfo)
    ensures var b, s, n := TableBytes(t), |t.schema|, |t.table|;
            && Here(b, 0, Le(s, 8)) && Here(b, 8, t.schema)
            && Here(b, 8 + s, Le(n, 8)) && Here(b, 16 + s, t.table)
            && Here(b, 16 + s + n, Le(|t.columns|, 4))
            && (t.columns == [] ==> |b| == 20 + s + n)
            && (t.columns != [] ==>
                  var c, p := t.columns[0], 20 + s + n;
                  && Here(b, p, Le(|c.name|, 8)) && Here(b, p + 8, c.name)
                  && (c.kind.Plain? ==> Here(b, p + 8 + |c.name|, [c.kind.tag]))
                  && (c.kind.Vector? ==> Here(b, p + 8 + |c.name|, [8] + Le(c.kind.dim % 0x1_0000, 2))))
  {
    hide Le, Here, StringBytes, ColumnBytes, KindBytes, ColumnsBytes;
    var b, s, n := TableBytes(t), |t.schema|, |t.table|;
    var count, columns := Le(|t.columns|, 4), ColumnsBytes(t.columns);
    HereAll(b);
    HereSplit(b, 0, StringBytes(t.schema), StringBytes(t.table) + (count + columns));
    StringParts(b, 0, t.schema);
    HereSplit(b, 8 + s, StringBytes(t.table), count + columns);
    StringParts(b, 8 + s, t.table);
    HereSplit(b, 16 + s + n, count, columns);
    ColumnParts(b, 20 + s + n, t.columns);
  }

  lemma {:induction false} StringParts(b: seq<Byte>, p: nat, s: seq<Byte>)
    ensures |StringBytes(s)| == 8 + |s|
    ensures Here(b, p, StringBytes(s)) ==> Here(b, p, Le(|s|, 8)) && Here(b, p + 8, s)
  {
    hide Le, Here;
    if Here(b, p, StringBytes(s)) {
      HereSplit(b, p, Le(|s|, 8), s);
    }
  }

  lemma {:induction false} ColumnParts(b: seq<Byte>, p: nat, cs: seq<Column>)
    requires Here(b, p, ColumnsBytes(cs))
    ensures cs == [] ==> |ColumnsBytes(cs)| == 0
    ensures cs != [] ==>
              var c := cs[0];
              && Here(b, p, Le(|c.name|, 8)) && Here(b, p + 8, c.name)
              && (c.kind.Plain? ==> Here(b, p + 8 + |c.name|, [c.kind.tag]))
              && (c.kind.Vector? ==> Here(b, p + 8 + |c.name|, [8] + Le(c.kind.dim % 0x1_0000, 2)))
  {
    hide Le, Here, StringBytes;
    if cs != [] {
      var c := cs[0];
      HereSplit(b, p, ColumnBytes(c), ColumnsBytes(cs[1..]));
      HereSplit(b, p, StringBytes(c.name), KindBytes(c.kind));
      StringParts(b, p, c.name);
    }
  }

  lemma HereAll(bytes: seq<Byte>)
    ensures Here(bytes, 0, bytes)
  {
  }

  /** A known record: schema "m", table "t", one column "v", a vector of dimension -2. */
  lemma {:induction false} KnownRecord()
    ensures TableBytes(TableInfo([109], [116], [Column([118], 0, Vector(-2))]))
         == [1, 0, 0, 0, 0, 0, 0, 0, 109, 1, 0, 0, 0, 0, 0, 0, 0, 116, 1, 0, 0, 0,
             1, 0, 0, 0, 0, 0, 0, 0, 118, 8, 254, 255]
  {
    hide Le, StringBytes, KindBytes;
    var c := Column([118], 0, Vector(-2));
    KnownIntegers();
    KnownStrings();
    assert [c][1..] == [];
    assert ColumnsBytes([c]) == ColumnBytes(c) + ColumnsBytes([]);
    assert ColumnBytes(c) == [1, 0, 0, 0, 0, 0, 0, 0, 118, 8, 254, 255];
    assert ColumnsBytes([c]) == ColumnBytes(c);
  }

  lemma KnownStrings()
    ensures StringBytes([109]) == [1, 0, 0, 0, 0, 0, 0, 0, 109]
    ensures StringBytes([116]) == [1, 0, 0, 0, 0, 0, 0, 0, 116]
    ensures StringBytes([118]) == [1, 0, 0, 0, 0, 0, 0, 0, 118]
    ensures KindBytes(Vector(-2)) == [8, 254, 255]
  {
    hide Le;
    KnownIntegers();
  }

  lemma KnownIntegers()
    ensures Le(1, 8) == [1, 0, 0, 0, 0, 0, 0, 0] && Le(1, 4) == [1, 0, 0, 0] && Le(0xfffe, 2) == [254, 255]
  {
    LeZero(7);
    LeZero(3);
    LeZero(0);
    assert Le(255, 1) == [255] + Le(0, 0);
  }

  lemma AtShape(d: Disk, r: Reader, chain: seq<nat>, bytes: seq<Byte>, p: nat)
    requires At(d, r, chain, bytes, p)
    ensures ReaderShape(r)
  {
  }

  /** A read of a part that is here returns it and moves past it. */
  lemma {:induction false} ReadPart(d: Disk, r: Reader, chain: seq<nat>, bytes: seq<Byte>, p: nat, part: seq<Byte>)
    requires At(d, r, chain, bytes, p) && Here(bytes, p, part)
    ensures ReaderShape(r)
    ensures var a := ReadData(d, r, |part|); a.bytes == part && At(d, a.r, chain, bytes, p + |part|)
  {
    hide ReaderAt, Stored, ReadData, ReaderShape, ReadSlice;
    AtShape(d, r, chain, bytes, p);
    var k: nat :| ReaderAt(d, r, chain, bytes, k, p);
    var k' := ReadDataCorrect(d, r, |part|, chain, bytes, k, p);
    ReadSliceEnds(d, ReadData(d, r, |part|), chain, bytes, k, p, k', p + |part|);
    ReadSliceBytes(d, ReadData(d, r, |part|), chain, bytes, k, p, k', p + |part|);
  }

  lemma ReadSliceBytes(d: Disk, res: Read, chain: seq<nat>, bytes: seq<Byte>, k: nat, p: nat, k': nat, q: nat)
    requires ReadSlice(d, res, chain, bytes, k, p, k', q)
    ensures p <= q <= |bytes| && res.bytes == bytes[p..q]
  {
  }

  // ---------------------------------------------------------------- one record

  lemma GetStringCorrect(d: Disk, r: Reader, chain: seq<nat>, bytes: seq<Byte>, p: nat, s: seq<Byte>)
    requires At(d, r, chain, bytes, p) && Here(bytes, p, StringBytes(s)) && |s| < U64_LIMIT
    ensures ReaderShape(r)
    ensures var g := GetString(d, r); g.value == s && At(d, g.r, chain, bytes, p + |StringBytes(s)|)
  {
    hide At, Here, ReadData;
    HereSplit(bytes, p, Le(|s|, 8), s);
    ReadPart(d, r, chain, bytes, p, Le(|s|, 8));
    U64RoundTrip(|s|);
    ReadPart(d, ReadData(d, r, 8).r, chain, bytes, p + 8, s);
  }

  lemma GetKindCorrect(d: Disk, r: Reader, chain: seq<nat>, bytes: seq<Byte>, p: nat, c: Column)
    requires At(d, r, chain, bytes, p) && Here(bytes, p, KindBytes(c.kind)) && ColumnOk(c)
    ensures ReaderShape(r)
    ensures var g := GetKind(d, r); g.value == c.kind && At(d, g.r, chain, bytes, p + |KindBytes(c.kind)|)
  {
    hide At, Here, ReadData;
    match c.kind
    case Plain(tag) =>
      ReadPart(d, r, chain, bytes, p, [tag]);
    case Vector(dim) =>
      HereSplit(bytes, p, [SQLT_VECTOR], PutI16(dim));
      ReadPart(d, r, chain, bytes, p, [SQLT_VECTOR]);
      ReadPart(d, ReadData(d, r, 1).r, chain, bytes, p + 1, PutI16(dim));
      I16RoundTrip(dim);
  }

  lemma GetColumnCorrect(d: Disk, r: Reader, chain: seq<nat>, bytes: seq<Byte>, p: nat, c: Column, i: nat)
    requires At(d, r, chain, bytes, p) && Here(bytes, p, ColumnBytes(c)) && ColumnOk(c)
    ensures ReaderShape(r)
    ensures var g := GetColumn(d, r, i);
            g.value == c.(oid := i) && At(d, g.r, chain, bytes, p + |ColumnBytes(c)|)
  {
    hide At, Here, GetString, GetKind, StringBytes, KindBytes;
    HereSplit(bytes, p, StringBytes(c.name), KindBytes(c.kind));
    GetStringCorrect(d, r, chain, bytes, p, c.name);
    GetKindCorrect(d, GetString(d, r).r, chain, bytes, p + |StringBytes(c.name)|, c);
  }

  /** The columns with their positions as object ids, which is what the decoder gives them. */
  function Numbered(cs: seq<Column>): seq<Column>
  {
    seq(|cs|, i requires 0 <= i < |cs| => cs[i].(oid := i))
  }

  lemma {:induction false} GetColumnsCorrect(d: Disk, r: Reader, chain: seq<nat>, bytes: seq<Byte>, p: nat,
                                             cs: seq<Column>, i: nat, n: nat)
    requires At(d, r, chain, bytes, p) && i <= n <= |cs| && Here(bytes, p, ColumnsBytes(cs[i..]))
    requires forall j :: 0 <= j < |cs| ==> ColumnOk(cs[j])
    ensures ReaderShape(r)
    ensures var g := GetColumns(d, r, i, n);
            && g.value == Numbered(cs)[i..n]
            && (n == |cs| ==> At(d, g.r, chain, bytes, p + |ColumnsBytes(cs[i..])|))
    decreases n - i
  {
    hide At, Here, GetColumn, ColumnBytes, ColumnOk, Numbered, ColumnsBytes, ReaderShape;
    AtShape(d, r, chain, bytes, p);
    NumberedAt(cs, i);
    ColumnsStep(cs, i);
    if i < n {
      var rest := ColumnsBytes(cs[i + 1..]);
      HereSplit(bytes, p, ColumnBytes(cs[i]), rest);
      GetColumnCorrect(d, r, chain, bytes, p, cs[i], i);
      var a := GetColumn(d, r, i);
      GetColumnsCorrect(d, a.r, chain, bytes, p + |ColumnBytes(cs[i])|, cs, i + 1, n);
      SliceCons(Numbered(cs), i, n);
    } else {
      assert Numbered(cs)[i..n] == [];
    }
  }

  lemma ColumnsStep(cs: seq<Column>, i: nat)
    requires i <= |cs|
    ensures i == |cs| ==> ColumnsBytes(cs[i..]) == []
    ensures i < |cs| ==> ColumnsBytes(cs[i..]) == ColumnBytes(cs[i]) + ColumnsBytes(cs[i + 1..])
  {
    if i < |cs| {
      assert cs[i..][1..] == cs[i + 1..];
    }
  }

  lemma NumberedAt(cs: seq<Column>, i: nat)
    ensures |Numbered(cs)| == |cs| && (i < |cs| ==> Numbered(cs)[i] == cs[i].(oid := i))
  {
  }

  lemma {:induction false} CountRoundTrip(n: nat)
    ensures FromLe(Le(n, 4)) == n % U32_LIMIT
  {
    FromLeOfLe(n, 4);
    Pow256Widths();
  }

  /** What the decoder makes of a record: the column count is written in 32 bits. */
  function Decoded(t: TableInfo): TableInfo
  {
    t.(columns := Numbered(t.columns)[..|t.columns| % U32_LIMIT])
  }

  /**
    Decoding a table record at any position of a stored stream gives the names, types and dimensions that were
    written, with positions as object ids. It gives all columns, and stops right after the record, if their number
    fits 32 bits.
   */
  lemma GetTableCorrect(d: Disk, r: Reader, chain: seq<nat>, bytes: seq<Byte>, p: nat, t: TableInfo)
    requires At(d, r, chain, bytes, p) && Here(bytes, p, TableBytes(t)) && TableOk(t)
    ensures ReaderShape(r)
    ensures var g := GetTable(d, r);
            && g.value == Decoded(t)
            && (|t.columns| < U32_LIMIT ==> At(d, g.r, chain, bytes, p + |TableBytes(t)|))
  {
    hide At, Here, GetString, GetColumns, ReadData, StringBytes, ColumnsBytes, ColumnOk, Numbered;
    var p1 := p + |StringBytes(t.schema)|;
    var p2 := p1 + |StringBytes(t.table)|;
    var count := Le(|t.columns|, 4);
    HereSplit(bytes, p, StringBytes(t.schema), StringBytes(t.table) + (count + ColumnsBytes(t.columns)));
    HereSplit(bytes, p1, StringBytes(t.table), count + ColumnsBytes(t.columns));
    HereSplit(bytes, p2, count, ColumnsBytes(t.columns));
    GetStringCorrect(d, r, chain, bytes, p, t.schema);
    var schema := GetString(d, r);
    GetStringCorrect(d, schema.r, chain, bytes, p1, t.table);
    var table := GetString(d, schema.r);
    ReadPart(d, table.r, chain, bytes, p2, count);
    CountRoundTrip(|t.columns|);
    var n := |t.columns| % U32_LIMIT;
    assert t.columns[0..] == t.columns;
    GetColumnsCorrect(d, ReadData(d, table.r, 4).r, chain, bytes, p2 + 4, t.columns, 0, n);
    NumberedAt(t.columns, 0);
    assert Numbered(t.columns)[0..n] == Numbered(t.columns)[..n];
  }

  /** The writer counts columns with an `int`, which overflows from this number of columns on. */
  const INT_LIMIT: nat := 0x8000_0000

  /**
    The decoder gives back every column exactly when their number fits the 32 bits it is written in. That is always so
    where the writer's index does not overflow.
   */
  lemma DecodedWholeIff(t: TableInfo)
    ensures |Decoded(t).columns| == |t.columns| <==> |t.columns| < U32_LIMIT
    ensures |t.columns| < U32_LIMIT ==> Decoded(t) == t.(columns := Numbered(t.columns))
    ensures |t.columns| < INT_LIMIT ==> Decoded(t) == t.(columns := Numbered(t.columns))
  {
    if |t.columns| < U32_LIMIT {
      assert Numbered(t.columns)[..|t.columns|] == Numbered(t.columns);
    }
  }

  // ---------------------------------------------------------------- many records

  ghost predicate TablesOk(ts: seq<TableInfo>)
  {
    forall i :: 0 <= i < |ts| ==> TableOk(ts[i]) && |ts[i].columns| < U32_LIMIT
  }

  function AllDecoded(ts: seq<TableInfo>): seq<TableInfo>
  {
    seq(|ts|, i requires 0 <= i < |ts| => ts[i].(columns := Numbered(ts[i].columns)))
  }

  /** The encoding is self-delimiting: any concatenation of records decodes to the same list. */
  lemma {:induction false} GetTablesCorrect(d: Disk, r: Reader, chain: seq<nat>, bytes: seq<Byte>, p: nat,
                                            ts: seq<TableInfo>)
    requires At(d, r, chain, bytes, p) && Here(bytes, p, TablesBytes(ts)) && TablesOk(ts)
    ensures ReaderShape(r)
    ensures var g := GetTables(d, r, |ts|);
            g.value == AllDecoded(ts) && At(d, g.r, chain, bytes, p + |TablesBytes(ts)|)
    decreases |ts|
  {
    hide At, Here, GetTable, TableBytes, TableOk, Decoded, AllDecoded, ReaderShape;
    AtShape(d, r, chain, bytes, p);
    AllDecodedStep(ts);
    if ts != [] {
      var rest := TablesBytes(ts[1..]);
      HereSplit(bytes, p, TableBytes(ts[0]), rest);
      GetTableCorrect(d, r, chain, bytes, p, ts[0]);
      DecodedWholeIff(ts[0]);
      var a := GetTable(d, r);
      GetTablesCorrect(d, a.r, chain, bytes, p + |TableBytes(ts[0])|, ts[1..]);
    }
  }

  lemma AllDecodedStep(ts: seq<TableInfo>)
    ensures ts == [] ==> AllDecoded(ts) == []
    ensures ts != [] ==>
              AllDecoded(ts) == [ts[0].(columns := Numbered(ts[0].columns))] + AllDecoded(ts[1..])
  {
    hide Numbered;
  }

  // ---------------------------------------------------------------- through a writer

  /** The writes of `SERIALIZER_WRITE_STRING`. */
  function StringChunks(s: seq<Byte>): seq<seq<Byte>>
  {
    [Le(|s|, 8), s]
  }

  function KindChunks(kind: ColumnType): seq<seq<Byte>>
  {
    match kind
    case Plain(tag) => [[tag]]
    case Vector(dim) => [[SQLT_VECTOR], PutI16(dim)]
  }

  function ColumnChunks(c: Column): seq<seq<Byte>>
  {
    StringChunks(c.name) + KindChunks(c.kind)
  }

  function ColumnsChunks(cs: seq<Column>): seq<seq<Byte>>
  {
    if cs == [] then [] else ColumnChunks(cs[0]) + ColumnsChunks(cs[1..])
  }

  /** The writes of `checkpointManager_write_table_catalog`. */
  function TableChunks(t: TableInfo): seq<seq<Byte>>
  {
    StringChunks(t.schema) + (StringChunks(t.table) + ([Le(|t.columns|, 4)] + ColumnsChunks(t.columns)))
  }

  function TablesChunks(ts: seq<TableInfo>): seq<seq<Byte>>
  {
    if ts == [] then [] else TableChunks(ts[0]) + TablesChunks(ts[1..])
  }

  lemma {:induction false} ConcatAppend(a: seq<seq<Byte>>, b: seq<seq<Byte>>)
    ensures Concat(a + b) == Concat(a) + Concat(b)
    decreases |a|
  {
    if a == [] {
      assert a + b == b;
    } else {
      assert (a + b)[1..] == a[1..] + b;
      ConcatAppend(a[1..], b);
    }
  }

  lemma ConcatOne(a: seq<Byte>)
    ensures Concat([a]) == a
  {
    var none := [a][1..];
    assert Concat(none) == [];
  }

  lemma ConcatTwo(a: seq<Byte>, b: seq<Byte>)
    ensures Concat([a, b]) == a + b
  {
    assert [a, b] == [a] + [b];
    ConcatAppend([a], [b]);
    ConcatOne(a);
    ConcatOne(b);
  }

  lemma StringChunksBytes(s: seq<Byte>)
    ensures Concat(StringChunks(s)) == StringBytes(s)
  {
    ConcatTwo(Le(|s|, 8), s);
  }

  lemma ColumnChunksBytes(c: Column)
    ensures Concat(ColumnChunks(c)) == ColumnBytes(c)
  {
    hide Concat;
    StringChunksBytes(c.name);
    ConcatAppend(StringChunks(c.name), KindChunks(c.kind));
    match c.kind
    case Plain(tag) => ConcatOne([tag]);
    case Vector(dim) => ConcatTwo([SQLT_VECTOR], PutI16(dim));
  }

  lemma {:induction false} ColumnsChunksBytes(cs: seq<Column>)
    ensures Concat(ColumnsChunks(cs)) == ColumnsBytes(cs)
    decreases |cs|
  {
    if cs != [] {
      hide ColumnChunks, ColumnBytes;
      ColumnChunksBytes(cs[0]);
      ConcatAppend(ColumnChunks(cs[0]), ColumnsChunks(cs[1..]));
      ColumnsChunksBytes(cs[1..]);
    }
  }

  lemma TableChunksBytes(t: TableInfo)
    ensures Concat(TableChunks(t)) == TableBytes(t)
  {
    hide Concat, StringChunks, StringBytes, ColumnsChunks, ColumnsBytes;
    var columns := ColumnsChunks(t.columns);
    var count := [Le(|t.columns|, 4)];
    ConcatAppend(StringChunks(t.schema), StringChunks(t.table) + (count + columns));
    ConcatAppend(StringChunks(t.table), count + columns);
    ConcatAppend(count, columns);
    ConcatOne(Le(|t.columns|, 4));
    StringChunksBytes(t.schema);
    StringChunksBytes(t.table);
    ColumnsChunksBytes(t.columns);
  }

  lemma {:induction false} TablesChunksBytes(ts: seq<TableInfo>)
    ensures Concat(TablesChunks(ts)) == TablesBytes(ts)
    decreases |ts|
  {
    if ts != [] {
      hide TableChunks, TableBytes;
      TableChunksBytes(ts[0]);
      ConcatAppend(TableChunks(ts[0]), TablesChunks(ts[1..]));
      TablesChunksBytes(ts[1..]);
    }
  }

  /** A checkpoint of tables through a writer of its own, with the intended writer loop, flushed at the end. */
  function SaveTables(m: Manager, ts: seq<TableInfo>): Saved
  {
    SaveStream(m, TablesChunks(ts))
  }

  lemma {:induction false} SaveTablesStores(d: Disk, m: Manager, ts: seq<TableInfo>, taken: set<nat>)
    requires Fresh(m, taken) && ts != [] && SaveTables(m, ts).m.maxBlock <= MAX_BLOCKS
    ensures var s := SaveTables(m, ts);
            && TablesBytes(ts) != [] && s.chain != [] && s.id == s.chain[0]
            && Stored(Apply(d, s.log).blocks, s.chain, TablesBytes(ts))
  {
    hide Fresh, TablesChunks, TablesBytes, WriteChunks, Stored;
    TablesChunksBytes(ts);
    NotEmpty(ts);
    StreamStored(d, m, TablesChunks(ts), taken);
  }

  lemma {:induction false} NotEmpty(ts: seq<TableInfo>)
    requires ts != []
    ensures TablesBytes(ts) != []
  {
    assert |StringBytes(ts[0].schema)| >= 8;
  }

  /**
    Table-record round trip through the block store: whatever the free list, the chain of blocks and the record
    lengths, decoding from the first block gives the tables back, in order.
   */
  lemma {:induction false} TablesRoundTrip(d: Disk, m: Manager, ts: seq<TableInfo>, taken: set<nat>)
    requires Fresh(m, taken) && ts != [] && TablesOk(ts) && SaveTables(m, ts).m.maxBlock <= MAX_BLOCKS
    ensures var s := SaveTables(m, ts);
            var d' := Apply(d, s.log);
            GetTables(d', Load(d', ZeroBuffer(), s.id), |ts|).value == AllDecoded(ts)
  {
    var s := SaveTables(m, ts);
    hide SaveTables, Fresh, Stored, ReaderAt, TablesBytes, TablesOk, Load, GetTables;
    SaveTablesStores(d, m, ts, taken);
    var d', bytes := Apply(d, s.log), TablesBytes(ts);
    var r := Load(d', ZeroBuffer(), s.id);
    LoadAt(d', ZeroBuffer(), s.chain, bytes, 0);
    assert ReaderAt(d', r, s.chain, bytes, 0, 0);
    assert At(d', r, s.chain, bytes, 0);
    assert bytes[0..0 + |bytes|] == bytes;
    GetTablesCorrect(d', r, s.chain, bytes, 0, ts);
  }

  // ---------------------------------------------------------------- as written

  /** `SaveTables` with the writer's loop as written; `None` if it never returns. */
  ghost function SaveTablesAsWritten(m: Manager, ts: seq<TableInfo>): Option<Saved>
  {
    AsWrittenStream(m, TablesChunks(ts))
  }

  /**
    With the writer's loop as written a checkpoint of tables is saved as intended if all records together fit the
    payload of one block, and never returns otherwise.
   */
  lemma {:induction false} AsWrittenSavesTablesIff(m: Manager, ts: seq<TableInfo>)
    ensures SaveTablesAsWritten(m, ts) == if |TablesBytes(ts)| <= PAYLOAD then Some(SaveTables(m, ts)) else None
  {
    AsWrittenStreamIff(m, TablesChunks(ts));
    TablesChunksBytes(ts);
  }
}

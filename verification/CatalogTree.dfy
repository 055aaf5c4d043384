/** The catalog as nested objects: a set of schemas whose entries each have a set of tables. */
module CatalogTree {
  import opened Collections
  import opened Versions
  import Sets = CatalogSet

  type Entry = Sets.Entry
  type Set = Sets.CatalogSet

  /** The table sets of some schema entries. */
  ghost function SetsOf(es: set<Entry>): set<Set>
  {
    set e | e in es && e.tables != null :: e.tables
  }

  ghost function TableEntries(es: set<Entry>): set<Entry>
    reads SetsOf(es)
  {
    set s, x | s in SetsOf(es) && x in Sets.EntriesOf(s.chains) :: x
  }

  lemma TableEntriesOf(es: set<Entry>, e: Entry)
    requires e in es && e.tables != null
    ensures e.tables in SetsOf(es)
    ensures forall x :: x in Sets.EntriesOf(e.tables.chains) ==> x in TableEntries(es)
  {
  }

  /** Every entry of `es` has a sound set of tables. */
  ghost predicate SetsValid(es: set<Entry>)
    reads SetsOf(es), TableEntries(es)
  {
    forall e :: e in es ==> e.tables != null && (TableEntriesOf(es, e); e.tables.Valid())
  }

  /** No two sets share an object or an entry. */
  ghost predicate SetsApart(schemas: Set, es: set<Entry>)
    reads schemas, SetsOf(es)
  {
    && (forall e :: e in es && e.tables != null ==>
          e.tables != schemas && Sets.EntriesOf(e.tables.chains) !! Sets.EntriesOf(schemas.chains))
    && (forall e, f :: e in es && f in es && e != f && e.tables != null && f.tables != null ==>
          e.tables != f.tables && Sets.EntriesOf(e.tables.chains) !! Sets.EntriesOf(f.tables.chains))
  }

  ghost function TableContents(es: set<Entry>): map<Entry, Chains<Entry>>
    reads SetsOf(es), TableEntries(es)
  {
    map e | e in es && e.tables != null :: (TableEntriesOf(es, e); e.tables.Contents())
  }

  /** The schema entries of a set, dropped or not. */
  ghost function SchemaEntries(schemas: Set): set<Entry>
    reads schemas
  {
    set e | e in Sets.EntriesOf(schemas.chains) && e.kind == Sets.Schema
  }

  class Catalog {
    const schemas: Set

    ghost predicate Valid()
      reads schemas, Sets.EntriesOf(schemas.chains), SetsOf(SchemaEntries(schemas)),
            TableEntries(SchemaEntries(schemas))
    {
      && schemas.Valid() && SetsValid(SchemaEntries(schemas)) && SetsApart(schemas, SchemaEntries(schemas))
      && Apart(Value())
    }

    /** The value this catalog stands for. */
    ghost function Value(): Versions.Catalog<Entry, Entry>
      reads schemas, Sets.EntriesOf(schemas.chains), SetsOf(SchemaEntries(schemas)),
            TableEntries(SchemaEntries(schemas))
    {
      Versions.Catalog(schemas.Contents(), TableContents(SchemaEntries(schemas)))
    }

    constructor ()
      ensures Valid() && Value() == EmptyCatalog()
    {
      schemas := new Sets.CatalogSet();
    }

    /** Puts the entry into the set of schemas; neither its own set of tables nor any other is touched. */
    method Insert(name: string, entry: Entry, dummyOk: bool, ghost es: set<Entry>) returns (ok: bool)
      requires schemas.Valid() && SetsValid(es) && SetsApart(schemas, es)
      requires entry.parent == null && !entry.deleted
      requires entry !in Sets.EntriesOf(schemas.chains) && entry !in TableEntries(es)
      modifies schemas, entry, Sets.EntriesOf(schemas.chains)`parent
      ensures schemas.Valid() && SetsValid(es) && SetsApart(schemas, es)
      ensures TableContents(es) == old(TableContents(es))
      ensures ok <==> !Visible(old(schemas.Contents()), name) && (name in old(schemas.Contents()) || dummyOk)
      ensures schemas.Contents() == if ok then Create(old(schemas.Contents()), name, entry) else old(schemas.Contents())
      ensures old(Sets.EntriesOf(schemas.chains)) <= Sets.EntriesOf(schemas.chains)
      ensures ok <==> entry in Sets.EntriesOf(schemas.chains)
      ensures forall e :: e in Sets.EntriesOf(schemas.chains) ==>
                e in old(Sets.EntriesOf(schemas.chains)) || e == entry || (fresh(e) && e.kind == Sets.Invalid)
    {
      hide Sets.CatalogSet.Valid, Sets.CatalogSet.Contents, Visible, Create;
      ok := schemas.CreateEntry(name, entry, dummyOk);
      forall e | e in es
        ensures e.tables.Valid() && e.tables.Contents() == old(e.tables.Contents())
        ensures e.tables.chains == old(e.tables.chains)
      {
        TableEntriesOf(es, e);
        assert old(e.tables.Valid());
      }
    }

    /** `catalog_get_schema`. */
    method GetSchema(name: string) returns (e: Sets.Entry?)
      requires Valid()
      ensures Valid() && Value() == old(Value())
      ensures e == match Lookup(Value().schemas, name) case None => null case Some(x) => x
      ensures e != null ==> e in SchemaEntries(schemas)
    {
      hide Sets.CatalogSet.Valid, Sets.CatalogSet.Contents, Lookup, Apart;
      FoundHasTables(Value(), name);
      KeysOfContents(SchemaEntries(schemas));
      e := schemas.Get(name);
      forall x | x in SchemaEntries(schemas)
        ensures x.tables != null && x.tables.Valid() && x.tables.Contents() == old(x.tables.Contents())
        ensures x.tables.chains == old(x.tables.chains)
      {
        TableEntriesOf(SchemaEntries(schemas), x);
        assert old(x.tables.Valid());
      }
      assert SetsValid(SchemaEntries(schemas)) && SetsApart(schemas, SchemaEntries(schemas));
      assert Value() == old(Value());
    }

    /** `catalog_get_table`. */
    method GetTable(schema: string, table: string) returns (t: Sets.Entry?)
      requires Valid()
      ensures t == match Versions.GetTable(Value(), schema, table) case None => null case Some(x) => x
    {
      hide Sets.CatalogSet.Valid, Sets.CatalogSet.Contents, Lookup, Apart;
      var e := GetSchema(schema);
      if e == null {
        return null;
      }
      TablesAt(SchemaEntries(schemas), e);
      t := e.tables.Get(table);
      forall x | x in SchemaEntries(schemas)
        ensures x.tables != null && x.tables.Valid() && x.tables.Contents() == old(x.tables.Contents())
        ensures x.tables.chains == old(x.tables.chains)
      {
        TableEntriesOf(SchemaEntries(schemas), x);
        assert old(x.tables.Valid());
      }
    }

    /**
      `catalog_create_schema`; `copyOk` and `dummyOk` say whether memory for the entry and for the dummy of a new
      name is found. A missing dummy is reported as an existing schema.
     */
    method CreateSchema(name: string, ifNotExists: bool, copyOk: bool, dummyOk: bool)
      returns (code: int, ghost e: Sets.Entry?)
      requires Valid()
      modifies schemas, Sets.EntriesOf(schemas.chains)`parent
      ensures Valid()
      ensures !copyOk ==> Value() == old(Value()) && code == -1
      ensures copyOk ==> e != null && fresh(e)
      ensures copyOk ==>
                Outcome(Value(), code) ==
                Versions.CreateSchema(old(Value()), name, e, ifNotExists, Memory(true, dummyOk))
    {
      hide Sets.CatalogSet.Valid, Sets.CatalogSet.Contents, Apart, Visible, Create;
      if !copyOk {
        return -1, null;
      }
      var mine := new Sets.CatalogSet();
      var entry := new Sets.Entry(Sets.Schema, name, mine);
      e := entry;
      forall x | x in SchemaEntries(schemas)
        ensures x.tables != null && x.tables.Valid() && x.tables.Contents() == old(x.tables.Contents())
        ensures x.tables.chains == old(x.tables.chains)
      {
        TableEntriesOf(SchemaEntries(schemas), x);
        assert old(x.tables.Valid());
      }
      assert SetsValid(SchemaEntries(schemas)) && SetsApart(schemas, SchemaEntries(schemas));
      assert Value() == old(Value());
      var ok := AddSchema(name, entry, dummyOk);
      code := if !ok && !ifNotExists then -2 else 0;
    }

    method AddSchema(name: string, entry: Entry, dummyOk: bool) returns (ok: bool)
      requires Valid()
      requires entry.kind == Sets.Schema && entry.parent == null && !entry.deleted
      requires entry !in Sets.EntriesOf(schemas.chains) && entry !in TableEntries(SchemaEntries(schemas))
      requires entry.tables != null && entry.tables.data == map[] && entry.tables.chains == map[]
      requires entry.tables != schemas && entry.tables !in SetsOf(SchemaEntries(schemas))
      modifies schemas, entry, Sets.EntriesOf(schemas.chains)`parent
      ensures Valid()
      ensures ok <==> !Refused(old(Value()).schemas, name, Memory(true, dummyOk))
      ensures Value() == Versions.CreateSchema(old(Value()), name, entry, true, Memory(true, dummyOk)).catalog
    {
      hide Sets.CatalogSet.Valid, Sets.CatalogSet.Contents, Visible, Create, Apart, SetsApart, SetsValid, TableContents;
      ghost var c, es := Value(), SchemaEntries(schemas);
      KeysOfContents(es);
      StepApart(c, MakeSchema(name, entry, true, Memory(true, dummyOk)));
      WithNewSet(schemas, es, entry);
      ok := Insert(name, entry, dummyOk, es + {entry});
      if ok {
        assert SchemaEntries(schemas) == es + {entry};
        assert Value() == Versions.CreateSchema(c, name, entry, true, Memory(true, dummyOk)).catalog;
      } else {
        assert SchemaEntries(schemas) == es;
        FewerSets(schemas, es, entry);
        WithoutKey(c.tables, entry, map[]);
        assert Value() == c;
      }
    }

    /** `catalog_drop_schema`; `mallocOk` says whether memory for the tombstone is found. */
    method DropSchema(name: string, mallocOk: bool) returns (code: int)
      requires Valid()
      modifies schemas, Sets.EntriesOf(schemas.chains)`parent
      ensures Valid()
      ensures Outcome(Value(), code) == Versions.DropSchema(old(Value()), name, mallocOk)
    {
      hide Sets.CatalogSet.Valid, Sets.CatalogSet.Contents, Apart, Drop;
      if name == DEFAULT_SCHEMA {
        return -1;
      }
      ghost var c, es := Value(), SchemaEntries(schemas);
      StepApart(c, RemoveSchema(name, mallocOk));
      var known := schemas.DropEntry(name, mallocOk);
      assert SchemaEntries(schemas) == es;
      forall x | x in es
        ensures x.tables != null && x.tables.Valid() && x.tables.Contents() == old(x.tables.Contents())
        ensures x.tables.chains == old(x.tables.chains)
      {
        TableEntriesOf(es, x);
        assert old(x.tables.Valid());
      }
      assert SetsValid(SchemaEntries(schemas)) && SetsApart(schemas, SchemaEntries(schemas));
      assert Value() == Versions.DropSchema(c, name, mallocOk).catalog;
      code := 0;
    }

    /** `catalog_create_table`; a missing dummy is reported as an existing table. */
    method CreateTable(schema: string, table: string, ifNotExists: bool, copyOk: bool, dummyOk: bool)
      returns (code: int, ghost t: Sets.Entry?)
      requires Valid()
      modifies SetsOf(SchemaEntries(schemas)), TableEntries(SchemaEntries(schemas))`parent
      ensures Valid()
      ensures Lookup(old(Value()).schemas, schema).None? || !copyOk ==> Value() == old(Value()) && code == -1
      ensures Lookup(old(Value()).schemas, schema).Some? && copyOk ==> t != null && fresh(t)
      ensures Lookup(old(Value()).schemas, schema).Some? && copyOk ==>
                Outcome(Value(), code) ==
                Versions.CreateTable(old(Value()), schema, table, t, ifNotExists, Memory(true, dummyOk))
    {
      hide Sets.CatalogSet.Valid, Sets.CatalogSet.Contents, Apart, Visible, Create, Lookup;
      var e := GetSchema(schema);
      if e == null || !copyOk {
        return -1, null;
      }
      var entry := new Sets.Entry(Sets.Table, table);
      t := entry;
      forall x | x in SchemaEntries(schemas)
        ensures x.tables != null && x.tables.Valid() && x.tables.Contents() == old(x.tables.Contents())
        ensures x.tables.chains == old(x.tables.chains)
      {
        TableEntriesOf(SchemaEntries(schemas), x);
        assert old(x.tables.Valid());
      }
      assert SetsValid(SchemaEntries(schemas)) && SetsApart(schemas, SchemaEntries(schemas));
      assert Value() == old(Value());
      TableEntriesOf(SchemaEntries(schemas), e);
      var ok := AddTable(e, schema, table, entry, dummyOk);
      code := if !ok && !ifNotExists then -2 else 0;
    }

    /** Puts a table entry into the set of one schema; all other sets stay as they are. */
    method AddTable(e: Entry, schema: string, table: string, entry: Entry, dummyOk: bool) returns (ok: bool)
      requires Valid() && e in SchemaEntries(schemas) && e.tables != null
      requires Lookup(Value().schemas, schema) == Some(e)
      requires entry.kind != Sets.Schema && entry.parent == null && !entry.deleted
      requires entry !in Sets.EntriesOf(schemas.chains) && entry !in TableEntries(SchemaEntries(schemas))
      modifies e.tables, entry, Sets.EntriesOf(e.tables.chains)`parent
      ensures Valid()
      ensures var before := TablesOf(old(Value()), e);
              ok <==> !Refused(before, table, Memory(true, dummyOk))
      ensures Value() == Versions.CreateTable(old(Value()), schema, table, entry, true, Memory(true, dummyOk)).catalog
    {
      hide Sets.CatalogSet.Valid, Sets.CatalogSet.Contents, Apart, Visible, Create, Lookup, SetsValid, SetsApart,
        TableContents;
      ghost var c, es := Value(), SchemaEntries(schemas);
      StepApart(c, MakeTable(schema, table, entry, true, Memory(true, dummyOk)));
      TablesAt(es, e);
      ok := PutTable(e, table, entry, dummyOk, es);
      assert SchemaEntries(schemas) == es;
      SameKey(c.tables, e);
      assert Value() == Versions.CreateTable(c, schema, table, entry, true, Memory(true, dummyOk)).catalog;
    }

    method PutTable(e: Entry, table: string, entry: Entry, dummyOk: bool, ghost es: set<Entry>) returns (ok: bool)
      requires schemas.Valid() && SetsValid(es) && SetsApart(schemas, es) && e in es && e.tables != null
      requires entry.parent == null && !entry.deleted
      requires entry !in Sets.EntriesOf(schemas.chains) && entry !in TableEntries(es)
      modifies e.tables, entry, Sets.EntriesOf(e.tables.chains)`parent
      ensures schemas.Valid() && SetsValid(es) && SetsApart(schemas, es)
      ensures schemas.chains == old(schemas.chains) && schemas.Contents() == old(schemas.Contents())
      ensures var before := old(e.tables.Contents());
              && (ok <==> !Visible(before, table) && (table in before || dummyOk))
              && TableContents(es) == old(TableContents(es))[e := if ok then Create(before, table, entry) else before]
    {
      hide Sets.CatalogSet.Valid, Sets.CatalogSet.Contents, Visible, Create, TableContents;
      TablesAt(es, e);
      TableEntriesOf(es, e);
      ghost var was := TableContents(es);
      forall x | x in es
        ensures x in was && was[x] == x.tables.Contents()
      {
        TablesAt(es, x);
      }
      ContentsKeys(es);
      ok := e.tables.CreateEntry(table, entry, dummyOk);
      forall x | x in es && x != e
        ensures x.tables != null && x.tables.Valid() && x.tables.Contents() == was[x]
        ensures x.tables.chains == old(x.tables.chains)
      {
        TableEntriesOf(es, x);
        assert old(x.tables.Valid());
      }
      assert schemas.Valid() && schemas.Contents() == old(schemas.Contents());
      ContentsUpdated(es, e, was);
    }

    /**
      `catalog_destroy`: every chain of schemas is walked, and each schema entry is reclaimed right after all entries
      of its own tables. The result lists the entries reclaimed, in order.
     */
    method Destroy() returns (freed: seq<Entry>)
      requires Valid()
      modifies schemas, Sets.EntriesOf(schemas.chains)`child, Sets.EntriesOf(schemas.chains)`parent
      modifies SetsOf(SchemaEntries(schemas))
      modifies TableEntries(SchemaEntries(schemas))`child, TableEntries(SchemaEntries(schemas))`parent
      ensures NoDup(freed)
      ensures Elems(freed) == old(Sets.EntriesOf(schemas.chains)) + old(TableEntries(SchemaEntries(schemas)))
    {
      hide Sets.CatalogSet.Valid, Apart, NoDup, HeldApart, Waiting, OwnSets, SetsValid, SetsApart, Below, Under, Held;
      ghost var es := SchemaEntries(schemas);
      ghost var held := Held(es);
      HeldIs(es);
      HeldKeys(es);
      var list := DetachSchemas(es, held);
      freed := FreeSchemas(list, held);
      BelowAll(list, held);
    }

    /** Takes the set of schemas apart and lists its entries; the sets of tables are not touched. */
    method DetachSchemas(ghost es: set<Entry>, ghost held: map<Entry, set<Entry>>) returns (list: seq<Entry>)
      requires schemas.Valid() && es == SchemaEntries(schemas) && held == Held(es)
      requires SetsValid(es) && SetsApart(schemas, es)
      modifies schemas, Sets.EntriesOf(schemas.chains)`child, Sets.EntriesOf(schemas.chains)`parent
      ensures NoDup(list) && Elems(list) == old(Sets.EntriesOf(schemas.chains)) && SchemasIn(list) == es
      ensures HeldApart(list, held) && Waiting(list, 0, held) && OwnSets(list)
      ensures TableEntries(es) == old(TableEntries(es))
    {
      hide Sets.CatalogSet.Valid;
      HeldIs(es);
      list := schemas.Deinit();
      forall x | x in es
        ensures x.tables != null && x.tables.Valid() && x.tables.chains == old(x.tables.chains)
      {
        TableEntriesOf(es, x);
        assert old(x.tables.Valid());
      }
      assert SchemasIn(list) == es;
      assert Held(es) == held;
      HeldIs(es);
    }
  }

  // ---------------------------------------------------------------- teardown

  /** The table entries below each schema entry. */
  ghost function Held(es: set<Entry>): map<Entry, set<Entry>>
    reads SetsOf(es)
  {
    map e | e in es && e.tables != null :: Sets.EntriesOf(e.tables.chains)
  }

  lemma HeldIs(es: set<Entry>)
    ensures TableEntries(es) == Under(Held(es))
  {
    forall x | x in TableEntries(es)
      ensures x in Under(Held(es))
    {
      var s :| s in SetsOf(es) && x in Sets.EntriesOf(s.chains);
      var e :| e in es && e.tables == s;
      assert e in Held(es) && x in Held(es)[e];
    }
    forall x | x in Under(Held(es))
      ensures x in TableEntries(es)
    {
      var e :| e in Held(es) && x in Held(es)[e];
      TableEntriesOf(es, e);
    }
  }

  lemma HeldKeys(es: set<Entry>)
    ensures forall e :: e in Held(es) ==> e in es
  {
  }

  ghost function Under(held: map<Entry, set<Entry>>): set<Entry>
  {
    set e, x | e in held && x in held[e] :: x
  }

  lemma BelowAll(list: seq<Entry>, held: map<Entry, set<Entry>>)
    requires forall e :: e in held ==> e in list
    ensures Below(list, held) == Elems(list) + Under(held)
  {
  }

  ghost function SchemasIn(list: seq<Entry>): set<Entry>
  {
    set e | e in list && e.kind == Sets.Schema
  }

  /** The schema entries of `list` from `i` on still have their sets of tables. */
  ghost predicate Waiting(list: seq<Entry>, i: nat, held: map<Entry, set<Entry>>)
    reads SetsOf(SchemasIn(list)), TableEntries(SchemasIn(list))
  {
    forall j :: i <= j < |list| && list[j].kind == Sets.Schema ==>
      && list[j].tables != null && list[j] in held
      && (TableEntriesOf(SchemasIn(list), list[j]); list[j].tables.Valid())
      && Sets.EntriesOf(list[j].tables.chains) == held[list[j]]
  }

  /** The entries of `list` and of the sets below them. */
  ghost function Below(list: seq<Entry>, held: map<Entry, set<Entry>>): set<Entry>
  {
    Elems(list) + set e, x | e in list && e in held && x in held[e] :: x
  }

  ghost predicate HeldApart(list: seq<Entry>, held: map<Entry, set<Entry>>)
  {
    && (forall e, f :: e in held && f in held && e != f ==> held[e] !! held[f])
    && (forall e :: e in held ==> held[e] !! Elems(list))
  }

  lemma BelowStep(list: seq<Entry>, i: nat, held: map<Entry, set<Entry>>, freed: seq<Entry>, inner: seq<Entry>)
    requires i < |list| && NoDup(list) && HeldApart(list, held)
    requires NoDup(freed) && Elems(freed) == Below(list[..i], held)
    requires NoDup(inner) && Elems(inner) == if list[i] in held then held[list[i]] else {}
    ensures NoDup(freed + inner + [list[i]]) && Elems(freed + inner + [list[i]]) == Below(list[..i + 1], held)
  {
    var e := list[i];
    assert list[..i + 1] == list[..i] + [e];
    assert e !in list[..i];
    forall x | x in freed
      ensures x !in inner && x != e
    {
      assert x in Below(list[..i], held);
      assert x in inner ==> x in Elems(inner);
      if x !in list[..i] {
        var f :| f in list[..i] && f in held && x in held[f];
        assert e in Elems(list);
      } else {
        assert x in Elems(list);
      }
    }
    forall x | x in inner
      ensures x != e
    {
      assert x in Elems(inner) && e in Elems(list);
    }
    NoDupConcat(freed, inner);
    NoDupConcat(freed + inner, [e]);
    ElemsConcat(freed, inner);
    ElemsConcat(freed + inner, [e]);
    hide NoDup, HeldApart;
    BelowSnoc(list[..i], e, held);
  }

  lemma BelowSnoc(list: seq<Entry>, e: Entry, held: map<Entry, set<Entry>>)
    ensures Below(list + [e], held) == Below(list, held) + (if e in held then held[e] else {}) + Elems([e])
  {
    var all := list + [e];
    assert all[|list|] == e;
    forall x | x in Below(list, held)
      ensures x in Below(all, held)
    {
      if x !in list {
        var f :| f in list && f in held && x in held[f];
        assert f in all;
      }
    }
  }

  /** Reclaims the listed schema entries, each after its tables. */
  method FreeSchemas(list: seq<Entry>, ghost held: map<Entry, set<Entry>>) returns (freed: seq<Entry>)
    requires NoDup(list) && HeldApart(list, held) && Waiting(list, 0, held) && OwnSets(list)
    requires forall e :: e in held ==> e.kind == Sets.Schema
    modifies SetsOf(SchemasIn(list)), TableEntries(SchemasIn(list))`child, TableEntries(SchemasIn(list))`parent
    ensures NoDup(freed) && Elems(freed) == Below(list, held)
  {
    hide Sets.CatalogSet.Valid, NoDup, HeldApart, Below;
    freed := [];
    ghost var all := TableEntries(SchemasIn(list));
    WaitingInside(list, held);
    BelowNothing(list, held);
    for i := 0 to |list|
      invariant Waiting(list, i, held)
      invariant NoDup(freed) && Elems(freed) == Below(list[..i], held)
    {
      var inner := [];
      if list[i].kind == Sets.Schema {
        TableEntriesOf(SchemasIn(list), list[i]);
        inner := FreeTables(list, i, held);
      }
      BelowStep(list, i, held, freed, inner);
      freed := freed + inner + [list[i]];
    }
    assert list[..|list|] == list;
  }

  lemma WaitingInside(list: seq<Entry>, held: map<Entry, set<Entry>>)
    requires Waiting(list, 0, held)
    ensures forall j :: 0 <= j < |list| && list[j].kind == Sets.Schema ==>
              list[j] in held && held[list[j]] <= TableEntries(SchemasIn(list))
  {
    hide Sets.CatalogSet.Valid;
    forall j | 0 <= j < |list| && list[j].kind == Sets.Schema
      ensures list[j] in held && held[list[j]] <= TableEntries(SchemasIn(list))
    {
      TableEntriesOf(SchemasIn(list), list[j]);
    }
  }

  lemma BelowNothing(list: seq<Entry>, held: map<Entry, set<Entry>>)
    ensures NoDup<Entry>([]) && Elems<Entry>([]) == Below(list[..0], held)
  {
  }

  /** No two schema entries share a set of tables. */
  ghost predicate OwnSets(list: seq<Entry>)
  {
    forall i, j :: 0 <= i < j < |list| && list[i].kind == Sets.Schema && list[j].kind == Sets.Schema ==>
      list[i].tables != list[j].tables
  }

  method FreeTables(list: seq<Entry>, i: nat, ghost held: map<Entry, set<Entry>>) returns (inner: seq<Entry>)
    requires i < |list| && list[i].kind == Sets.Schema
    requires NoDup(list) && HeldApart(list, held) && Waiting(list, i, held) && OwnSets(list)
    requires list[i].tables != null
    modifies list[i].tables
    modifies Sets.EntriesOf(list[i].tables.chains)`child, Sets.EntriesOf(list[i].tables.chains)`parent
    ensures Waiting(list, i + 1, held)
    ensures NoDup(inner) && list[i] in held && Elems(inner) == held[list[i]]
  {
    hide Sets.CatalogSet.Valid;
    var e := list[i];
    TableEntriesOf(SchemasIn(list), e);
    inner := e.tables.Deinit();
    forall j | i + 1 <= j < |list| && list[j].kind == Sets.Schema
      ensures list[j].tables.Valid() && list[j].tables.chains == old(list[j].tables.chains)
    {
      TableEntriesOf(SchemasIn(list), list[j]);
      assert old(list[j].tables.Valid());
      assert held[list[i]] !! held[list[j]];
    }
  }

  lemma SameKey<X, Y>(m: map<X, Y>, x: X)
    requires x in m
    ensures m[x := m[x]] == m
  {
  }

  lemma WithoutKey<X, Y>(m: map<X, Y>, x: X, y: Y)
    requires x !in m
    ensures m[x := y] - {x} == m
  {
  }

  lemma KeysOfContents(es: set<Entry>)
    ensures forall e :: e in TableContents(es) ==> e in es && e.tables != null
    ensures forall e :: e in es && e.tables != null ==> e in TableContents(es)
  {
  }

  lemma FoundHasTables(c: Versions.Catalog<Entry, Entry>, name: string)
    requires Apart(c)
    ensures Lookup(c.schemas, name).Some? ==> Lookup(c.schemas, name).value in c.tables
  {
    FoundIsHeld(c.schemas, name);
  }

  lemma TablesAt(es: set<Entry>, e: Entry)
    requires e in es && SetsValid(es)
    ensures e.tables != null && e.tables.Valid() && e in TableContents(es)
    ensures TableContents(es)[e] == e.tables.Contents()
  {
    TableEntriesOf(es, e);
  }

  lemma ContentsKeys(es: set<Entry>)
    requires SetsValid(es)
    ensures TableContents(es).Keys == es
  {
  }

  lemma ContentsUpdated(es: set<Entry>, e: Entry, was: map<Entry, Chains<Entry>>)
    requires SetsValid(es) && was.Keys == es && e in es
    requires forall x :: x in es && x != e ==> x.tables.Contents() == was[x]
    ensures TableContents(es) == was[e := e.tables.Contents()]
  {
    hide Sets.CatalogSet.Valid, Sets.CatalogSet.Contents;
  }

  /** A new entry with a new, empty set of tables. */
  lemma WithNewSet(schemas: Set, es: set<Entry>, entry: Entry)
    requires SetsValid(es) && SetsApart(schemas, es) && entry !in es && entry !in TableEntries(es)
    requires entry.tables != null && entry.tables.data == map[] && entry.tables.chains == map[]
    requires entry.tables != schemas && entry.tables !in SetsOf(es)
    ensures SetsValid(es + {entry}) && SetsApart(schemas, es + {entry}) && entry !in TableEntries(es + {entry})
    ensures TableContents(es + {entry}) == TableContents(es)[entry := map[]]
  {
    assert entry.tables.Valid() && entry.tables.Contents() == map[];
    assert Sets.EntriesOf(entry.tables.chains) == {};
    hide Sets.CatalogSet.Valid, Sets.CatalogSet.Contents, Sets.EntriesOf;
    forall e | e in es
      ensures e.tables in SetsOf(es) && e.tables.Valid()
    {
      TableEntriesOf(es, e);
    }
  }

  lemma FewerSets(schemas: Set, es: set<Entry>, entry: Entry)
    requires SetsValid(es + {entry}) && SetsApart(schemas, es + {entry}) && entry !in es
    ensures SetsValid(es) && SetsApart(schemas, es)
    ensures TableContents(es) == TableContents(es + {entry}) - {entry}
  {
    hide Sets.CatalogSet.Valid, Sets.CatalogSet.Contents, Sets.EntriesOf;
    forall e | e in es
      ensures e.tables != null && e.tables.Valid()
    {
      assert e in es + {entry};
    }
  }
}

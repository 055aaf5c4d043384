/**
  Versioned names as values: what a catalog set stores for each name, the operations on it, and the two-level
  catalog of schemas and their tables.
 */
module Versions {
  import opened Collections

  /** One link of a version chain; `Dummy` stands for the time before the first create. */
  datatype Version<T> = Dummy | Created(entry: T) | Dropped

  /** Every known name with its versions, oldest first. */
  type Chains<T> = map<string, seq<Version<T>>>

  predicate Visible<T>(vs: Chains<T>, name: string)
  {
    name in vs && |vs[name]| > 0 && vs[name][|vs[name]| - 1] != Dropped
  }

  /** `catalogSet_get_entry`. */
  function Lookup<T>(vs: Chains<T>, name: string): Option<T>
  {
    if Visible(vs, name) && vs[name][|vs[name]| - 1].Created? then Some(vs[name][|vs[name]| - 1].entry) else None
  }

  /** The chain a new version of `name` is put on. */
  function ChainFor<T>(vs: Chains<T>, name: string): seq<Version<T>>
  {
    if name in vs then vs[name] else [Dummy]
  }

  /** `catalogSet_create_entry`, when it gets the memory it asks for. */
  function Create<T>(vs: Chains<T>, name: string, e: T): Chains<T>
  {
    if Visible(vs, name) then vs else vs[name := ChainFor(vs, name) + [Created(e)]]
  }

  /** `catalogSet_drop_entry`: a tombstone on any name ever created, visible or not. */
  function Drop<T>(vs: Chains<T>, name: string): Chains<T>
  {
    if name in vs then vs[name := vs[name] + [Dropped]] else vs
  }

  /** Names whose newest version is not a tombstone. */
  function VisibleNames<T>(vs: Chains<T>): set<string>
  {
    set name | name in vs && Visible(vs, name)
  }

  // ---------------------------------------------------------------- every run

  /** A create or drop, and whether memory is found for a new entry if one is asked for. */
  datatype Op<T> = CreateOp(name: string, entry: T, mallocOk: bool) | DropOp(name: string, mallocOk: bool)

  /** The operation adds a version: a create of a name seen before needs no memory, any other does. */
  predicate TakesEffect<T>(vs: Chains<T>, op: Op<T>)
  {
    match op
    case CreateOp(name, _, mallocOk) => !Visible(vs, name) && (name in vs || mallocOk)
    case DropOp(name, mallocOk) => name in vs && mallocOk
  }

  /** What the code returns; a drop of a known name says yes even if it found no memory for the tombstone. */
  predicate Reports<T>(vs: Chains<T>, op: Op<T>)
  {
    match op
    case CreateOp(_, _, _) => TakesEffect(vs, op)
    case DropOp(name, _) => name in vs
  }

  function Apply<T>(vs: Chains<T>, op: Op<T>): Chains<T>
  {
    if !TakesEffect(vs, op) then vs
    else if op.CreateOp? then Create(vs, op.name, op.entry)
    else Drop(vs, op.name)
  }

  function Run<T>(vs: Chains<T>, ops: seq<Op<T>>): Chains<T>
    decreases |ops|
  {
    if ops == [] then vs else Run(Apply(vs, ops[0]), ops[1..])
  }

  function VersionOf<T>(op: Op<T>): Version<T>
  {
    match op
    case CreateOp(_, e, _) => Created(e)
    case DropOp(_, _) => Dropped
  }

  /** The creates and drops of `name` that take effect, in order. */
  function HistoryOf<T>(vs: Chains<T>, ops: seq<Op<T>>, name: string): seq<Version<T>>
    decreases |ops|
  {
    if ops == [] then []
    else
      (if ops[0].name == name && TakesEffect(vs, ops[0]) then [VersionOf(ops[0])] else []) +
      HistoryOf(Apply(vs, ops[0]), ops[1..], name)
  }

  /** One operation adds its version to its own name's chain if it takes effect, and changes nothing else. */
  lemma ApplyStep<T>(vs: Chains<T>, op: Op<T>, name: string)
    ensures op.name == name && TakesEffect(vs, op) ==>
              name in Apply(vs, op) && Apply(vs, op)[name] == ChainFor(vs, name) + [VersionOf(op)]
    ensures !(op.name == name && TakesEffect(vs, op)) ==>
              (name in Apply(vs, op) <==> name in vs) && ChainFor(Apply(vs, op), name) == ChainFor(vs, name)
  {
  }

  lemma {:induction false} ChainGrowsByHistory<T>(vs: Chains<T>, ops: seq<Op<T>>, name: string)
    ensures var h := HistoryOf(vs, ops, name);
            && (name in Run(vs, ops) <==> name in vs || h != [])
            && ChainFor(Run(vs, ops), name) == ChainFor(vs, name) + h
    decreases |ops|
  {
    if ops == [] {
      assert ChainFor(vs, name) + [] == ChainFor(vs, name);
    } else {
      var vs' := Apply(vs, ops[0]);
      var head := if ops[0].name == name && TakesEffect(vs, ops[0]) then [VersionOf(ops[0])] else [];
      var rest := HistoryOf(vs', ops[1..], name);
      assert HistoryOf(vs, ops, name) == head + rest && Run(vs, ops) == Run(vs', ops[1..]);
      ChainGrowsByHistory(vs', ops[1..], name);
      ApplyStep(vs, ops[0], name);
      hide Apply, HistoryOf, Run, TakesEffect;
      Assoc(ChainFor(vs, name), head, rest);
      assert ChainFor(vs', name) == ChainFor(vs, name) + head;
    }
  }

  /**
    The version chain is the history: after any run of creates and drops, whatever memory they find, a name's chain
    is one dummy followed by the operations that took effect, in order, and a name never created has no chain.
   */
  lemma {:induction false} ChainIsHistory<T>(ops: seq<Op<T>>, name: string)
    ensures var h := HistoryOf(map[], ops, name);
            && (h != [] ==> name in Run(map[], ops) && Run(map[], ops)[name] == [Dummy] + h)
            && (h == [] ==> name !in Run(map[], ops))
  {
    ChainGrowsByHistory(map[], ops, name);
  }

  /** A name is visible, and found, exactly when the last operation on it that took effect was a create. */
  lemma {:induction false} VisibleIffLastCreated<T>(ops: seq<Op<T>>, name: string)
    ensures var vs, h := Run(map[], ops), HistoryOf(map[], ops, name);
            && (Visible(vs, name) <==> h != [] && h[|h| - 1].Created?)
            && Lookup(vs, name) == if h != [] && h[|h| - 1].Created? then Some(h[|h| - 1].entry) else None
  {
    ChainIsHistory(ops, name);
    NoDummyInHistory(map[], ops, name);
  }

  lemma {:induction false} NoDummyInHistory<T>(vs: Chains<T>, ops: seq<Op<T>>, name: string)
    ensures forall i :: 0 <= i < |HistoryOf(vs, ops, name)| ==> !HistoryOf(vs, ops, name)[i].Dummy?
    decreases |ops|
  {
    if ops != [] {
      NoDummyInHistory(Apply(vs, ops[0]), ops[1..], name);
    }
  }

  /**
    After any run, creating a name succeeds exactly if it is not visible and was created before or finds memory, and is
    visible afterwards in any case but one: it was never created and there is none. Dropping it reports success exactly
    if it was ever created, and leaves it visible only if it was and there is no memory for the tombstone.
   */
  lemma {:induction false} SetCodes<T>(ops: seq<Op<T>>, name: string, e: T, mallocOk: bool)
    ensures var vs, known := Run(map[], ops), HistoryOf(map[], ops, name) != [];
            var create, drop := CreateOp(name, e, mallocOk), DropOp(name, mallocOk);
            && (Reports(vs, create) <==> !Visible(vs, name) && (known || mallocOk))
            && (Visible(Apply(vs, create), name) <==> known || mallocOk)
            && (Reports(vs, create) ==> Lookup(Apply(vs, create), name) == Some(e))
            && (!Reports(vs, create) ==> Apply(vs, create) == vs)
            && (Reports(vs, drop) <==> known)
            && (Visible(Apply(vs, drop), name) <==> Visible(vs, name) && !mallocOk)
  {
    hide Run, HistoryOf;
    ChainIsHistory(ops, name);
    VisibleIffLastCreated(ops, name);
  }

  /** How many operations on `name` reported success. */
  function Reported<T>(vs: Chains<T>, ops: seq<Op<T>>, name: string): nat
    decreases |ops|
  {
    if ops == [] then 0
    else (if ops[0].name == name && Reports(vs, ops[0]) then 1 else 0) + Reported(Apply(vs, ops[0]), ops[1..], name)
  }

  /** Some drop of `name` came when the name was known and there was no memory. */
  predicate SilentDrop<T>(vs: Chains<T>, ops: seq<Op<T>>, name: string)
    decreases |ops|
  {
    ops != [] &&
    ((ops[0].DropOp? && ops[0].name == name && name in vs && !ops[0].mallocOk) ||
     SilentDrop(Apply(vs, ops[0]), ops[1..], name))
  }

  /** The chain records every operation that reported success exactly when no drop of the name lacked memory. */
  lemma {:induction false} RecordsAllReportedIff<T>(vs: Chains<T>, ops: seq<Op<T>>, name: string)
    ensures |HistoryOf(vs, ops, name)| <= Reported(vs, ops, name)
    ensures |HistoryOf(vs, ops, name)| == Reported(vs, ops, name) <==> !SilentDrop(vs, ops, name)
    decreases |ops|
  {
    if ops != [] {
      RecordsAllReportedIff(Apply(vs, ops[0]), ops[1..], name);
    }
  }

  // ---------------------------------------------------------------- schemas and their tables

  const DEFAULT_SCHEMA := "main"

  /** The catalog: schema names with their versions, and for each schema entry its own set of tables. */
  datatype Catalog<S, T> = Catalog(schemas: Chains<S>, tables: map<S, Chains<T>>)

  datatype Outcome<S, T> = Outcome(catalog: Catalog<S, T>, code: int)

  function EmptyCatalog<S(==), T>(): Catalog<S, T>
  {
    Catalog(map[], map[])
  }

  /** Whether a create finds memory for its entry, and for the dummy that a name never seen needs besides. */
  datatype Memory = Memory(copyOk: bool, dummyOk: bool)

  const ENOUGH := Memory(true, true)

  /** The set refuses a new entry: the name is visible, or it is new and there is no memory for its dummy. */
  predicate Refused<T>(vs: Chains<T>, name: string, memory: Memory)
  {
    Visible(vs, name) || (name !in vs && !memory.dummyOk)
  }

  /** `catalog_create_schema` with the new entry `e`, if there is memory for it. */
  function CreateSchema<S(==), T>(c: Catalog<S, T>, name: string, e: S, ifNotExists: bool, memory: Memory)
    : Outcome<S, T>
  {
    if !memory.copyOk then Outcome(c, -1)
    else if Refused(c.schemas, name, memory) then Outcome(c, if ifNotExists then 0 else -2)
    else Outcome(Catalog(Create(c.schemas, name, e), c.tables[e := map[]]), 0)
  }

  /** `catalog_drop_schema`, which reports success even without memory for the tombstone. */
  function DropSchema<S(==), T>(c: Catalog<S, T>, name: string, mallocOk: bool): Outcome<S, T>
  {
    if name == DEFAULT_SCHEMA then Outcome(c, -1)
    else Outcome(if mallocOk then c.(schemas := Drop(c.schemas, name)) else c, 0)
  }

  function TablesOf<S(==), T>(c: Catalog<S, T>, e: S): Chains<T>
  {
    if e in c.tables then c.tables[e] else map[]
  }

  /** `catalog_create_table`. */
  function CreateTable<S(==), T>(c: Catalog<S, T>, schema: string, table: string, t: T, ifNotExists: bool,
                                 memory: Memory): Outcome<S, T>
  {
    match Lookup(c.schemas, schema)
    case None => Outcome(c, -1)
    case Some(e) =>
      if !memory.copyOk then Outcome(c, -1)
      else if Refused(TablesOf(c, e), table, memory) then Outcome(c, if ifNotExists then 0 else -2)
      else Outcome(c.(tables := c.tables[e := Create(TablesOf(c, e), table, t)]), 0)
  }

  /** `catalog_get_table`. */
  function GetTable<S(==), T>(c: Catalog<S, T>, schema: string, table: string): Option<T>
  {
    match Lookup(c.schemas, schema)
    case None => None
    case Some(e) => Lookup(TablesOf(c, e), table)
  }

  /** Version `i` of `name` is an entry. */
  ghost predicate HoldsAt<S>(vs: Chains<S>, name: string, i: nat)
  {
    name in vs && i < |vs[name]| && vs[name][i].Created?
  }

  ghost function EntryAt<S>(vs: Chains<S>, name: string, i: nat): S
    requires HoldsAt(vs, name, i)
  {
    vs[name][i].entry
  }

  /** Every schema entry has a set of tables, and no entry is in the chains of two names. */
  ghost predicate Apart<S, T>(c: Catalog<S, T>)
  {
    && (forall a: string, i: nat :: HoldsAt(c.schemas, a, i) ==> EntryAt(c.schemas, a, i) in c.tables)
    && (forall a: string, i: nat, b: string, j: nat ::
          HoldsAt(c.schemas, a, i) && HoldsAt(c.schemas, b, j) && EntryAt(c.schemas, a, i) == EntryAt(c.schemas, b, j)
          ==> a == b)
  }

  datatype CatalogOp<S, T> =
    | MakeSchema(schema: string, e: S, ifNotExists: bool, memory: Memory)
    | RemoveSchema(schema: string, mallocOk: bool)
    | MakeTable(schema: string, table: string, t: T, ifNotExists: bool, memory: Memory)

  function Step<S(==), T>(c: Catalog<S, T>, op: CatalogOp<S, T>): Catalog<S, T>
  {
    match op
    case MakeSchema(s, e, x, memory) => CreateSchema(c, s, e, x, memory).catalog
    case RemoveSchema(s, mallocOk) => DropSchema(c, s, mallocOk).catalog
    case MakeTable(s, table, t, x, memory) => CreateTable(c, s, table, t, x, memory).catalog
  }

  /** A schema is created with an entry that is not in use. */
  ghost predicate Proper<S, T>(c: Catalog<S, T>, op: CatalogOp<S, T>)
  {
    op.MakeSchema? ==> op.e !in c.tables
  }

  ghost predicate IsRun<S, T>(c: Catalog<S, T>, ops: seq<CatalogOp<S, T>>)
    decreases |ops|
  {
    ops == [] || (Proper(c, ops[0]) && IsRun(Step(c, ops[0]), ops[1..]))
  }

  function Steps<S(==), T>(c: Catalog<S, T>, ops: seq<CatalogOp<S, T>>): Catalog<S, T>
    decreases |ops|
  {
    if ops == [] then c else Steps(Step(c, ops[0]), ops[1..])
  }

  lemma CreateHolds<S>(vs: Chains<S>, name: string, e: S, n: string, i: nat)
    requires HoldsAt(Create(vs, name, e), n, i)
    ensures HoldsAt(vs, n, i) || (n == name && EntryAt(Create(vs, name, e), n, i) == e)
    ensures HoldsAt(vs, n, i) ==> EntryAt(Create(vs, name, e), n, i) == EntryAt(vs, n, i)
  {
    var c := ChainFor(vs, name);
    assert (c + [Created(e)])[|c|] == Created(e);
  }

  lemma DropHolds<S>(vs: Chains<S>, name: string, n: string, i: nat)
    requires HoldsAt(Drop(vs, name), n, i)
    ensures HoldsAt(vs, n, i) && EntryAt(Drop(vs, name), n, i) == EntryAt(vs, n, i)
  {
  }

  lemma StepApart<S, T>(c: Catalog<S, T>, op: CatalogOp<S, T>)
    requires Apart(c) && Proper(c, op)
    ensures Apart(Step(c, op))
  {
    var c' := Step(c, op);
    if op.MakeSchema? && op.memory.copyOk && !Refused(c.schemas, op.schema, op.memory) {
      forall n: string, i: nat | HoldsAt(c'.schemas, n, i)
        ensures HoldsAt(c.schemas, n, i) || (n == op.schema && EntryAt(c'.schemas, n, i) == op.e)
        ensures HoldsAt(c.schemas, n, i) ==> EntryAt(c'.schemas, n, i) == EntryAt(c.schemas, n, i)
      {
        CreateHolds(c.schemas, op.schema, op.e, n, i);
      }
      hide Create, HoldsAt, EntryAt;
    } else if op.RemoveSchema? && op.schema != DEFAULT_SCHEMA && op.mallocOk {
      forall n: string, i: nat | HoldsAt(c'.schemas, n, i)
        ensures HoldsAt(c.schemas, n, i) && EntryAt(c'.schemas, n, i) == EntryAt(c.schemas, n, i)
      {
        DropHolds(c.schemas, op.schema, n, i);
      }
      hide Drop, HoldsAt, EntryAt;
    }
  }

  lemma FoundIsHeld<S>(vs: Chains<S>, name: string)
    ensures Lookup(vs, name).Some? ==>
              HoldsAt(vs, name, |vs[name]| - 1) && EntryAt(vs, name, |vs[name]| - 1) == Lookup(vs, name).value
  {
  }

  /** An operation on one schema changes nothing that another schema shows. */
  lemma StepIsolated<S, T>(c: Catalog<S, T>, op: CatalogOp<S, T>, other: string, table: string)
    requires Apart(c) && Proper(c, op) && op.schema != other
    ensures Lookup(Step(c, op).schemas, other) == Lookup(c.schemas, other)
    ensures GetTable(Step(c, op), other, table) == GetTable(c, other, table)
  {
    FoundIsHeld(c.schemas, other);
    FoundIsHeld(c.schemas, op.schema);
  }

  lemma {:induction false} RunApart<S, T>(c: Catalog<S, T>, ops: seq<CatalogOp<S, T>>)
    requires Apart(c) && IsRun(c, ops)
    ensures Apart(Steps(c, ops))
    decreases |ops|
  {
    if ops != [] {
      hide Apart, Step;
      StepApart(c, ops[0]);
      RunApart(Step(c, ops[0]), ops[1..]);
    }
  }

  lemma {:induction false} RunIsolated<S, T>(c: Catalog<S, T>, ops: seq<CatalogOp<S, T>>, other: string, table: string)
    requires Apart(c) && IsRun(c, ops) && forall i :: 0 <= i < |ops| ==> ops[i].schema != other
    ensures GetTable(Steps(c, ops), other, table) == GetTable(c, other, table)
    decreases |ops|
  {
    if ops != [] {
      hide Apart, Step, GetTable;
      StepApart(c, ops[0]);
      StepIsolated(c, ops[0], other, table);
      RunIsolated(Step(c, ops[0]), ops[1..], other, table);
    }
  }

  lemma EmptyApart<S, T>()
    ensures Apart(EmptyCatalog<S, T>())
  {
  }

  /** Over any run, a schema shows exactly what it showed before if no operation names it. */
  lemma {:induction false} SchemasIsolated<S, T>(before: seq<CatalogOp<S, T>>, ops: seq<CatalogOp<S, T>>, other: string,
                                                 table: string)
    requires IsRun(EmptyCatalog(), before) && IsRun(Steps(EmptyCatalog(), before), ops)
    requires forall i :: 0 <= i < |ops| ==> ops[i].schema != other
    ensures var c := Steps(EmptyCatalog(), before);
            GetTable(Steps(c, ops), other, table) == GetTable(c, other, table)
  {
    hide Apart, GetTable, IsRun, Steps;
    EmptyApart<S, T>();
    RunApart(EmptyCatalog<S, T>(), before);
    RunIsolated(Steps(EmptyCatalog(), before), ops, other, table);
  }

  /** The default schema, once created, stays visible for ever. */
  lemma {:induction false} MainStaysVisible<S, T>(c: Catalog<S, T>, ops: seq<CatalogOp<S, T>>)
    requires Visible(c.schemas, DEFAULT_SCHEMA)
    ensures Visible(Steps(c, ops).schemas, DEFAULT_SCHEMA)
    decreases |ops|
  {
    if ops != [] {
      MainStaysVisible(Step(c, ops[0]), ops[1..]);
    }
  }

  ghost predicate Makes<S, T>(op: CatalogOp<S, T>, schema: string, table: string, t: T)
  {
    op.MakeTable? && op.schema == schema && op.table == table && op.t == t
  }

  /** A table found after one operation was found before it, or is the one the operation made. */
  lemma StepFinds<S, T>(c: Catalog<S, T>, op: CatalogOp<S, T>, schema: string, table: string)
    requires Apart(c) && Proper(c, op) && GetTable(Step(c, op), schema, table).Some?
    ensures var t := GetTable(Step(c, op), schema, table);
            GetTable(c, schema, table) == t || Makes(op, schema, table, t.value)
  {
    if op.schema != schema {
      StepIsolated(c, op, schema, table);
    }
  }

  lemma {:induction false} RunFinds<S, T>(c: Catalog<S, T>, ops: seq<CatalogOp<S, T>>, schema: string, table: string)
    requires Apart(c) && IsRun(c, ops) && GetTable(Steps(c, ops), schema, table).Some?
    ensures var t := GetTable(Steps(c, ops), schema, table);
            GetTable(c, schema, table) == t || exists i :: 0 <= i < |ops| && Makes(ops[i], schema, table, t.value)
    decreases |ops|
  {
    if ops != [] {
      hide Apart, Step, GetTable, Makes;
      var t := GetTable(Steps(c, ops), schema, table);
      StepApart(c, ops[0]);
      RunFinds(Step(c, ops[0]), ops[1..], schema, table);
      if GetTable(Step(c, ops[0]), schema, table) == t {
        StepFinds(c, ops[0], schema, table);
        assert GetTable(c, schema, table) == t || Makes(ops[0], schema, table, t.value);
      } else {
        var i :| 0 <= i < |ops[1..]| && Makes(ops[1..][i], schema, table, t.value);
        assert Makes(ops[i + 1], schema, table, t.value);
      }
    }
  }

  ghost predicate NeverMakesSchema<S, T>(ops: seq<CatalogOp<S, T>>, schema: string)
  {
    forall i :: 0 <= i < |ops| ==> !(ops[i].MakeSchema? && ops[i].schema == schema)
  }

  /** A schema that is not there stays so, with all its tables, until an operation creates it again. */
  lemma {:induction false} HiddenUntilCreated<S, T>(c: Catalog<S, T>, ops: seq<CatalogOp<S, T>>, schema: string)
    requires Lookup(c.schemas, schema).None? && NeverMakesSchema(ops, schema)
    ensures Lookup(Steps(c, ops).schemas, schema).None?
    decreases |ops|
  {
    if ops != [] {
      HiddenUntilCreated(Step(c, ops[0]), ops[1..], schema);
    }
  }

  /** Every known name has a version besides its dummy. */
  ghost predicate Headed<T>(vs: Chains<T>)
  {
    forall name :: name in vs ==> |vs[name]| > 0 && !vs[name][|vs[name]| - 1].Dummy?
  }

  ghost predicate AllHeaded<S, T>(c: Catalog<S, T>)
  {
    Headed(c.schemas) && forall e :: e in c.tables ==> Headed(c.tables[e])
  }

  lemma {:induction false} RunHeaded<S, T>(c: Catalog<S, T>, ops: seq<CatalogOp<S, T>>)
    requires AllHeaded(c)
    ensures AllHeaded(Steps(c, ops))
    decreases |ops|
  {
    if ops != [] {
      RunHeaded(Step(c, ops[0]), ops[1..]);
    }
  }

  /**
    After any run, a drop reports success, but it hides the schema and all its tables for as long as it is not created
    again if and only if it found memory or the schema was not visible.
   */
  lemma {:induction false} DropHidesIff<S, T>(before: seq<CatalogOp<S, T>>, schema: string, mallocOk: bool, t: T)
    requires schema != DEFAULT_SCHEMA
    ensures var c := Steps(EmptyCatalog<S, T>(), before);
            var d := DropSchema(c, schema, mallocOk);
            && d.code == 0
            && (mallocOk || !Visible(c.schemas, schema) <==>
                forall after: seq<CatalogOp<S, T>>, table ::
                  NeverMakesSchema(after, schema) ==> GetTable(Steps(d.catalog, after), schema, table) == None)
  {
    hide Steps, Headed;
    var c := Steps(EmptyCatalog<S, T>(), before);
    RunHeaded(EmptyCatalog<S, T>(), before);
    var d := DropSchema(c, schema, mallocOk).catalog;
    VisibleFound(c.schemas, schema);
    if mallocOk || !Visible(c.schemas, schema) {
      hide Visible, NeverMakesSchema, DropSchema;
      assert Lookup(d.schemas, schema).None? by {
        DroppedGone(c, schema, mallocOk);
      }
      forall after: seq<CatalogOp<S, T>>, table | NeverMakesSchema(after, schema)
        ensures GetTable(Steps(d, after), schema, table) == None
      {
        HiddenUntilCreated(d, after, schema);
      }
    } else {
      var after := ShowsNewTable(c, schema, t);
    }
  }

  lemma VisibleFound<T>(vs: Chains<T>, name: string)
    requires Headed(vs)
    ensures Lookup(vs, name).Some? <==> Visible(vs, name)
  {
  }

  lemma DroppedGone<S, T>(c: Catalog<S, T>, schema: string, mallocOk: bool)
    requires schema != DEFAULT_SCHEMA && (mallocOk || !Visible(c.schemas, schema))
    ensures Lookup(DropSchema(c, schema, mallocOk).catalog.schemas, schema).None?
  {
  }

  /** A schema that is there can be given a table, if it has not got it already. */
  lemma {:induction false} ShowsNewTable<S, T>(c: Catalog<S, T>, schema: string, t: T)
    returns (after: seq<CatalogOp<S, T>>)
    requires AllHeaded(c) && Lookup(c.schemas, schema).Some?
    ensures NeverMakesSchema(after, schema) && GetTable(Steps(c, after), schema, "").Some?
  {
    var op: CatalogOp<S, T> := MakeTable(schema, "", t, true, ENOUGH);
    after := [op];
    assert after[1..] == [];
    assert Steps(c, after) == Step(c, op);
    assert NeverMakesSchema(after, schema);
    var e := Lookup(c.schemas, schema).value;
    assert Headed(TablesOf(c, e));
    assert GetTable(Step(c, op), schema, "").Some?;
  }

  /** From `c` on, the schema only ever shows tables made later, if and only if it shows none in `c`. */
  lemma {:induction false} OnlyNewIff<S, T>(c: Catalog<S, T>, schema: string)
    requires Apart(c)
    ensures (forall table :: GetTable(c, schema, table) == None) <==>
              forall after: seq<CatalogOp<S, T>>, table ::
                IsRun(c, after) && GetTable(Steps(c, after), schema, table).Some? ==>
                  MadeIn(after, schema, table, GetTable(Steps(c, after), schema, table).value)
  {
    hide GetTable, Apart, Makes, Step;
    if forall table :: GetTable(c, schema, table) == None {
      forall after: seq<CatalogOp<S, T>>, table | IsRun(c, after) && GetTable(Steps(c, after), schema, table).Some?
        ensures MadeIn(after, schema, table, GetTable(Steps(c, after), schema, table).value)
      {
        RunFinds(c, after, schema, table);
      }
    } else {
      var table :| GetTable(c, schema, table) != None;
      var none: seq<CatalogOp<S, T>> := [];
      assert IsRun(c, none) && GetTable(Steps(c, none), schema, table) == GetTable(c, schema, table);
      assert !MadeIn(none, schema, table, GetTable(Steps(c, none), schema, table).value);
    }
  }

  ghost predicate MadeIn<S, T>(ops: seq<CatalogOp<S, T>>, schema: string, table: string, t: T)
  {
    exists i :: 0 <= i < |ops| && Makes(ops[i], schema, table, t)
  }

  /**
    Dropping a schema and creating it again starts from no tables, so that every table it shows at any later time was
    made after that, if and only if the drop found memory or the schema showed no table before.
   */
  lemma {:induction false} RecreateEmptiesIff<S, T>(before: seq<CatalogOp<S, T>>, schema: string, mallocOk: bool, e: S,
                                                    ifNotExists: bool, memory: Memory)
    requires schema != DEFAULT_SCHEMA && IsRun(EmptyCatalog(), before)
    requires e !in Steps(EmptyCatalog<S, T>(), before).tables
    ensures var c := Steps(EmptyCatalog<S, T>(), before);
            var dropped := DropSchema(c, schema, mallocOk).catalog;
            var again := CreateSchema(dropped, schema, e, ifNotExists, memory).catalog;
            && (mallocOk || (forall table :: GetTable(c, schema, table) == None) <==>
                forall after: seq<CatalogOp<S, T>>, table ::
                  IsRun(again, after) && GetTable(Steps(again, after), schema, table).Some? ==>
                    MadeIn(after, schema, table, GetTable(Steps(again, after), schema, table).value))
            && (mallocOk || !Visible(c.schemas, schema) ==>
                  (Visible(again.schemas, schema) <==> memory.copyOk && (schema in c.schemas || memory.dummyOk)))
  {
    var c := Steps(EmptyCatalog<S, T>(), before);
    var dropped := DropSchema(c, schema, mallocOk).catalog;
    var again := CreateSchema(dropped, schema, e, ifNotExists, memory).catalog;
    hide Apart, IsRun, Steps, MadeIn;
    EmptyApart<S, T>();
    RunApart(EmptyCatalog<S, T>(), before);
    RecreateApart(c, schema, mallocOk, e, ifNotExists, memory);
    OnlyNewIff(again, schema);
    if mallocOk {
      forall table
        ensures GetTable(again, schema, table) == None
      {
        RecreatedEmpty(c, schema, e, ifNotExists, memory, table);
      }
    } else {
      forall table
        ensures GetTable(again, schema, table) == GetTable(c, schema, table)
      {
        UndroppedSame(c, schema, e, ifNotExists, memory, table);
      }
    }
  }

  lemma RecreatedEmpty<S, T>(c: Catalog<S, T>, schema: string, e: S, ifNotExists: bool, memory: Memory, table: string)
    requires schema != DEFAULT_SCHEMA
    ensures var dropped := DropSchema(c, schema, true).catalog;
            GetTable(CreateSchema(dropped, schema, e, ifNotExists, memory).catalog, schema, table) == None
  {
  }

  /** Without the tombstone the create is refused if the schema was visible, and starts from no tables otherwise. */
  lemma UndroppedSame<S, T>(c: Catalog<S, T>, schema: string, e: S, ifNotExists: bool, memory: Memory, table: string)
    requires schema != DEFAULT_SCHEMA
    ensures var again := CreateSchema(DropSchema(c, schema, false).catalog, schema, e, ifNotExists, memory).catalog;
            GetTable(again, schema, table) == GetTable(c, schema, table)
  {
  }

  lemma RecreateApart<S, T>(c: Catalog<S, T>, schema: string, mallocOk: bool, e: S, ifNotExists: bool, memory: Memory)
    requires Apart(c) && schema != DEFAULT_SCHEMA && e !in c.tables
    ensures Apart(CreateSchema(DropSchema(c, schema, mallocOk).catalog, schema, e, ifNotExists, memory).catalog)
  {
    hide Apart, CreateSchema;
    StepApart(c, RemoveSchema(schema, mallocOk));
    StepApart(DropSchema(c, schema, mallocOk).catalog, MakeSchema(schema, e, ifNotExists, memory));
  }

  // ---------------------------------------------------------------- return codes

  lemma {:induction false} ReachedHeaded<S, T>(before: seq<CatalogOp<S, T>>)
    ensures AllHeaded(Steps(EmptyCatalog<S, T>(), before))
  {
    hide Steps, AllHeaded;
    assert AllHeaded(EmptyCatalog<S, T>()) by {
      EmptyHeaded<S, T>();
    }
    RunHeaded(EmptyCatalog<S, T>(), before);
  }

  lemma EmptyHeaded<S, T>()
    ensures AllHeaded(EmptyCatalog<S, T>())
  {
  }

  /**
    After any run, creating a schema reports -1 exactly without memory for its entry; -2 exactly with that memory,
    without `if_not_exists`, if the name was visible before or is not even visible now; and 0 otherwise. With memory
    enough and without `if_not_exists`, 0 means that the name was not visible and now leads to the new entry.
   */
  lemma {:induction false} SchemaCodes<S, T>(before: seq<CatalogOp<S, T>>, name: string, e: S, ifNotExists: bool,
                                             memory: Memory)
    ensures var c := Steps(EmptyCatalog<S, T>(), before);
            var r := CreateSchema(c, name, e, ifNotExists, memory);
            var was, now := Visible(c.schemas, name), Visible(r.catalog.schemas, name);
            && (r.code == -1 <==> !memory.copyOk)
            && (r.code == -2 <==> memory.copyOk && !ifNotExists && (was || !now))
            && (r.code == -1 || r.code == -2 || r.code == 0) && (r.code < 0 ==> r.catalog == c)
            && (memory == Memory(true, true) && !ifNotExists ==>
                  (r.code == 0 <==> !was) && (r.code == 0 ==> Lookup(r.catalog.schemas, name) == Some(e)))
            && (memory == Memory(true, true) ==> now)
  {
    hide Steps;
    ReachedHeaded<S, T>(before);
  }

  /**
    After any run, creating a table reports -1 exactly if its schema is not visible or there is no memory for its
    entry; -2 exactly if neither holds, without `if_not_exists`, and the table was shown before or is not even shown
    now; and 0 otherwise. With memory enough and without `if_not_exists`, 0 means that the table was not shown and is
    shown now.
   */
  lemma {:induction false} TableCodes<S, T>(before: seq<CatalogOp<S, T>>, schema: string, table: string, t: T,
                                            ifNotExists: bool, memory: Memory)
    ensures var c := Steps(EmptyCatalog<S, T>(), before);
            var r := CreateTable(c, schema, table, t, ifNotExists, memory);
            var there := Visible(c.schemas, schema);
            var was, now := GetTable(c, schema, table).Some?, GetTable(r.catalog, schema, table).Some?;
            && (r.code == -1 <==> !there || !memory.copyOk)
            && (r.code == -2 <==> there && memory.copyOk && !ifNotExists && (was || !now))
            && (r.code == -1 || r.code == -2 || r.code == 0) && (r.code < 0 ==> r.catalog == c)
            && (there && memory == Memory(true, true) && !ifNotExists ==>
                  (r.code == 0 <==> !was) && (r.code == 0 ==> GetTable(r.catalog, schema, table) == Some(t)))
            && (there && memory == Memory(true, true) ==> now)
  {
    hide Steps;
    ReachedHeaded<S, T>(before);
    var c := Steps(EmptyCatalog<S, T>(), before);
    VisibleFound(c.schemas, schema);
    if Lookup(c.schemas, schema).Some? {
      var tables := TablesOf(c, Lookup(c.schemas, schema).value);
      assert Headed(tables);
      VisibleFound(tables, table);
    }
  }

  /** Dropping reports -1 for the default schema, which it leaves alone, and 0 for any other. */
  lemma DropCodes<S, T>(c: Catalog<S, T>, schema: string, mallocOk: bool)
    ensures var r := DropSchema(c, schema, mallocOk);
            && (schema == "main" ==> r.code == -1 && r.catalog == c)
            && (schema != "main" ==> r.code == 0)
  {
  }
}

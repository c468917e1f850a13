/**
 Laws of the catalog operations of `catalog_state.dfy`: when each succeeds, what it leaves alone, and which
 undo each other.
 */
module CatalogLaws {
  import opened Wrappers
  import opened Names
  import opened TableProtocol
  import opened CatalogState

  // ---------- Names ----------

  /** A qualified table is under its own schema and no other. */
  lemma UnderIff(schema: string, table: string, other: string)
    requires '.' !in schema && '.' !in other
    ensures Under(Qualify(schema, table), other) <==> other == schema
  {
    var key := Qualify(schema, table);
    assert key[|schema|] == '.' && schema == key[..|schema|] && schema + "." == key[..|schema| + 1];
    if Under(key, other) {
      assert key[|other|] == (other + ".")[|other|] == '.' && other == (other + ".")[..|other|] == key[..|other|];
      DotInLonger(key, schema, other);
      DotInLonger(key, other, schema);
    }
  }

  lemma DotInLonger(key: string, a: string, b: string)
    requires a <= key && b <= key && |a| < |key| && key[|a|] == '.'
    ensures |a| < |b| ==> '.' in b
  {
    if |a| < |b| {
      assert b[|a|] == key[|a|];
    }
  }

  lemma {:induction false} BeforeFirstDot(schema: string, rest: string)
    requires '.' !in schema
    ensures '.' in Qualify(schema, rest) && BeforeDot(Qualify(schema, rest)) == Some(schema)
    decreases |schema|
  {
    var key := Qualify(schema, rest);
    assert key[|schema|] == '.';
    if schema != [] {
      assert key[0] == schema[0] && schema[0] in schema && key[1..] == Qualify(schema[1..], rest);
      BeforeFirstDot(schema[1..], rest);
      assert schema == [schema[0]] + schema[1..];
    }
  }

  /** A name of two parts has the first as its schema. */
  lemma SchemaOfQualified(schema: string, table: string)
    requires '.' !in schema && '.' !in table
    ensures SchemaPart(Qualify(schema, table)) == Some(schema)
  {
    BeforeFirstDot(schema, table);
    hide BeforeDot;
    assert Qualify(schema, table)[|schema| + 1..] == table;
  }

  // ---------- When operations succeed, and what a failing one changes ----------

  /** A failing operation changes nothing. */
  lemma FailingKeeps(kind: Kind, c: Catalog, op: Op)
    ensures !Apply(kind, c, op).ok ==> Apply(kind, c, op).catalog == c
  {
    hide Upper, Resolve, Under, InDroppedSchema, DroppedData, TablesUnder, WriteBack;
  }

  /** Which table operations succeed. */
  lemma SucceedsIff(kind: Kind, c: Catalog, name: string, other: string, t: Stored)
    ensures Apply(kind, c, CreateTable(name, t)).ok <==> Upper(name) !in c.tables && !InDroppedSchema(kind, c, Upper(name))
    ensures Apply(kind, c, DropTable(name)).ok <==> Resolve(c, name) in c.tables
    ensures Apply(kind, c, RenameTable(name, other)).ok <==> Resolve(c, name) in c.tables && Upper(other) !in c.tables
    ensures Apply(kind, c, ReplaceTable(name, t)).ok <==> Upper(name) in c.tables
    ensures Apply(kind, c, CreateOrReplaceTable(name, t)).ok && Apply(kind, c, UpdateTable(name, t)).ok
  {
    hide Upper, Resolve, InDroppedSchema;
  }

  /** Which schema operations succeed. */
  lemma SchemaSucceedsIff(kind: Kind, c: Catalog, name: string, lenient: bool, cascade: bool, options: Options)
    ensures Apply(kind, c, CreateSchema(name, lenient, options)).ok <==> Upper(name) !in c.schemas || lenient
    ensures Apply(kind, c, DropSchema(name, lenient, cascade)).ok
            <==> if Upper(name) in c.schemas then cascade || TablesUnder(c, Upper(name)) == {} else lenient
    ensures Apply(kind, c, UndropSchema(name, lenient)).ok
            <==> if Upper(name) in c.schemas then lenient else Upper(name) in c.dropped || lenient
    ensures Apply(kind, c, AlterSchema(name, options)).ok <==> Upper(name) in c.schemas
  {
    hide Upper, TablesUnder, DroppedData;
  }

  /** Where a schema operation has nothing to do, or is not allowed, it changes nothing. */
  lemma SchemaKept(kind: Kind, c: Catalog, name: string, lenient: bool, options: Options)
    ensures Upper(name) in c.schemas ==> Apply(kind, c, CreateSchema(name, lenient, options)).catalog == c == Apply(kind, c, UndropSchema(name, lenient)).catalog
    ensures Upper(name) !in c.schemas ==> Apply(kind, c, DropSchema(name, lenient, true)).catalog == c
    ensures Upper(name) !in c.schemas && Upper(name) !in c.dropped ==> Apply(kind, c, UndropSchema(name, lenient)).catalog == c
    ensures TablesUnder(c, Upper(name)) != {} ==> Apply(kind, c, DropSchema(name, lenient, false)).catalog == c
  {
    hide Upper, TablesUnder, DroppedData;
  }

  /** The plain catalog refuses a new table under a dropped schema; the concurrent one looks at table names only. */
  lemma DroppedSchemaRefuses(kind: Kind, c: Catalog, schema: string, table: string, t: Stored)
    requires '.' !in schema && '.' !in table && Upper(Qualify(schema, table)) == Qualify(schema, table)
    ensures Apply(kind, c, CreateTable(Qualify(schema, table), t)).ok
            <==> Qualify(schema, table) !in c.tables && (kind.Plain? ==> schema !in c.dropped)
  {
    SchemaOfQualified(schema, table);
    hide Upper, Qualify, SchemaPart;
  }

  // ---------- The search path, defaults and transactions ----------

  /** A name with a dot, or of a table that is there, stands for itself, whatever the search path is. */
  lemma OwnName(c: Catalog, name: string)
    requires '.' in Upper(name) || Upper(name) in c.tables
    ensures Resolve(c, name) == Upper(name)
  {
    hide Upper, FindInPath;
  }

  /** After SET SEARCH_PATH a name that is no table is found in the first schema named, however it was written. */
  lemma PathIsUsed(kind: Kind, c: Catalog, name: string, schema: string, rest: seq<string>)
    requires '.' !in Upper(name) && Upper(name) !in c.tables && Qualify(Upper(schema), Upper(name)) in c.tables
    ensures var d := Apply(kind, c, SetSearchPath([schema] + rest)).catalog;
            Resolve(d, name) == Qualify(Upper(schema), Upper(name)) && d == c.(searchPath := d.searchPath)
  {
    hide Upper, Qualify;
    var d := Apply(kind, c, SetSearchPath([schema] + rest)).catalog;
    assert d.searchPath[0] == Upper(schema);
    ResolvesToFirst(d.searchPath, d.tables.Keys, name, 0);
  }

  /** Setting the defaults of a table sets those and no others, and nothing else. */
  lemma DefaultsStored(kind: Kind, c: Catalog, name: string, columnDefaults: seq<ColumnDefault>, other: string)
    ensures var e := Apply(kind, c, SetDefaults(name, columnDefaults));
            && e.ok && e.catalog == c.(defaults := e.catalog.defaults)
            && Upper(name) in e.catalog.defaults && e.catalog.defaults[Upper(name)] == columnDefaults
            && (other != Upper(name) ==> (other in e.catalog.defaults <==> other in c.defaults)
                                         && (other in c.defaults ==> e.catalog.defaults[other] == c.defaults[other]))
  {
    hide Upper;
  }

  /** After a commit, or before any begin, a rollback changes nothing. */
  lemma CommitForgets(kind: Kind, c: Catalog)
    ensures var d := Apply(kind, c, CommitTransaction).catalog; d.snapshot.None? && Apply(kind, d, RollbackTransaction) == Effect(d, true)
    ensures Apply(kind, c, CommitTransaction).catalog == c.(snapshot := None)
    ensures c.snapshot.None? ==> Apply(kind, c, RollbackTransaction) == Effect(c, true)
  {
    hide WriteBack;
  }

  /** A statement sees what it has written into its own copies. */
  lemma OwnWritesSeen(l: LockSet, name: string, t: Stored)
    ensures Lookup(l.(writeTables := l.writeTables[Upper(name) := t]), name) == Some(t)
    ensures Upper(name) !in l.writeTables ==>
              Lookup(l, name) == if Upper(name) in l.readTables then Some(l.readTables[Upper(name)]) else None
  {
    hide Upper;
  }

  /** The parts of a catalog other than its tables. */
  predicate OnlyTables(c: Catalog, d: Catalog) {
    d == c.(tables := d.tables)
  }

  /** Table operations change no other part, and no table but those they name. */
  lemma TableFrame(kind: Kind, c: Catalog, op: Op, key: string)
    requires op.CreateTable? || op.DropTable? || op.RenameTable? || op.ReplaceTable? || op.CreateOrReplaceTable? || op.UpdateTable?
    requires if op.DropTable? then key != Resolve(c, op.name)
             else if op.RenameTable? then key != Resolve(c, op.oldName) && key != Upper(op.newName)
             else key != Upper(op.name)
    ensures var d := Apply(kind, c, op).catalog;
            OnlyTables(c, d) && (key in d.tables <==> key in c.tables) && (key in c.tables ==> d.tables[key] == c.tables[key])
  {
    hide Upper, Resolve, InDroppedSchema;
  }

  /** After a successful operation that stores a table it is there; updating a table that is not there adds none. */
  lemma TableStored(kind: Kind, c: Catalog, name: string, t: Stored)
    ensures forall op | op in {CreateTable(name, t), ReplaceTable(name, t), CreateOrReplaceTable(name, t)} ::
              Apply(kind, c, op).ok ==> Upper(name) in Apply(kind, c, op).catalog.tables && Apply(kind, c, op).catalog.tables[Upper(name)] == t
    ensures var d := Apply(kind, c, UpdateTable(name, t)).catalog;
            (Upper(name) in d.tables <==> Upper(name) in c.tables) && (Upper(name) in c.tables ==> d.tables[Upper(name)] == t)
  {
    hide Upper, InDroppedSchema;
  }

  // ---------- Operations that undo each other ----------

  /** Dropping a table just created gives the catalog back. */
  lemma CreateDrop(kind: Kind, c: Catalog, name: string, t: Stored)
    requires Apply(kind, c, CreateTable(name, t)).ok
    ensures Apply(kind, Apply(kind, c, CreateTable(name, t)).catalog, DropTable(name)) == Effect(c, true)
  {
    hide Upper, InDroppedSchema, FindInPath;
    var d := Apply(kind, c, CreateTable(name, t)).catalog;
    assert Resolve(d, name) == Upper(name);
    assert d.tables - {Upper(name)} == c.tables;
  }

  /** Renaming back gives the catalog back. */
  lemma RenameBack(kind: Kind, c: Catalog, name: string, other: string)
    requires Upper(name) in c.tables && Apply(kind, c, RenameTable(name, other)).ok
    ensures Apply(kind, Apply(kind, c, RenameTable(name, other)).catalog, RenameTable(other, name)) == Effect(c, true)
  {
    hide Upper, InDroppedSchema, FindInPath;
    var d := Apply(kind, c, RenameTable(name, other)).catalog;
    assert Resolve(c, name) == Upper(name) && Resolve(d, other) == Upper(other);
    assert Upper(name) !in d.tables && d.tables[Upper(other)] == c.tables[Upper(name)];
    assert (d.tables - {Upper(other)})[Upper(name) := d.tables[Upper(other)]] == c.tables;
  }

  /** Replacing a table and putting the old one back gives the catalog back. */
  lemma ReplaceBack(kind: Kind, c: Catalog, name: string, t: Stored)
    requires Upper(name) in c.tables
    ensures Apply(kind, Apply(kind, c, ReplaceTable(name, t)).catalog, ReplaceTable(name, c.tables[Upper(name)])) == Effect(c, true)
    ensures Apply(kind, Apply(kind, c, UpdateTable(name, t)).catalog, UpdateTable(name, c.tables[Upper(name)])) == Effect(c, true)
  {
    hide Upper;
    assert c.tables[Upper(name) := t][Upper(name) := c.tables[Upper(name)]] == c.tables;
  }

  /** A schema just created and dropped leaves only what is kept of it for UNDROP; the options are those given. */
  lemma CreateDropSchema(kind: Kind, c: Catalog, name: string, options: Options)
    requires Upper(name) !in c.schemas && Upper(name) !in c.metadata && TablesUnder(c, Upper(name)) == {}
    ensures var created := Apply(kind, c, CreateSchema(name, false, options));
            && created.ok && Upper(name) in created.catalog.schemas && Upper(name) !in created.catalog.dropped
            && created.catalog.metadata == c.metadata[Upper(name) := options] && created.catalog.tables == c.tables
            && var dropped := Apply(kind, created.catalog, DropSchema(name, false, false));
               dropped.ok && dropped.catalog == c.(dropped := c.dropped[Upper(name) := Dropped(options, map[], map[])])
  {
    hide Upper, Under;
    var key := Upper(name);
    var d := Apply(kind, c, CreateSchema(name, false, options)).catalog;
    assert TablesUnder(d, key) == {};
    NothingUnder(kind, d, key);
    assert d.tables - {} == c.tables && d.schemas - {key} == c.schemas && d.metadata - {key} == c.metadata;
    assert (c.dropped - {key})[key := Dropped(options, map[], map[])] == c.dropped[key := Dropped(options, map[], map[])];
  }

  lemma NothingUnder(kind: Kind, c: Catalog, key: string)
    requires TablesUnder(c, key) == {}
    ensures DroppedData(kind, c, key).tables == map[] && DroppedData(kind, c, key).defaults == map[]
  {
    hide Under;
    assert forall t | t in c.tables && Under(t, key) :: t in TablesUnder(c, key);
  }
}

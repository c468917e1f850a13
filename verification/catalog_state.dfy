/**
 The catalogs of `crates/executor/src/concurrent_catalog.rs` and `crates/executor/src/catalog.rs`, as
 values: tables, column defaults, schemas and what was dropped, with the effect of each operation.
 Views, functions and procedures are plain maps and left out.
 */
module CatalogState {
  import opened Wrappers
  import opened Names
  import opened Ir
  import opened TableProtocol

  datatype ColumnDefault = ColumnDefault(columnName: string, defaultExpr: Expr)

  type Options = map<string, string>

  datatype Dropped = Dropped(metadata: Options, tables: Database, defaults: map<string, seq<ColumnDefault>>)

  /** The shared catalog of the concurrent executor, and the plain one it grew from. */
  datatype Kind = Concurrent | Plain

  datatype Catalog = Catalog(
    tables: Database,
    defaults: map<string, seq<ColumnDefault>>,
    schemas: set<string>,
    metadata: map<string, Options>,
    searchPath: seq<string>,
    dropped: map<string, Dropped>,
    snapshot: Option<Database>)

  const EMPTY: Catalog := Catalog(map[], map[], {}, map[], [], map[], None)

  // ---------- Names ----------

  /** The table keys that belong to a schema start with its key and a dot. */
  predicate Under(key: string, schema: string) {
    schema + "." <= key
  }

  function Qualify(schema: string, key: string): string {
    schema + "." + key
  }

  function FindInPath(path: seq<string>, tables: set<string>, key: string): string {
    if path == [] then key
    else if Qualify(path[0], key) in tables then Qualify(path[0], key)
    else FindInPath(path[1..], tables, key)
  }

  /** A dotted or existing name stands for itself; others are looked for in the search path. */
  function ResolveName(path: seq<string>, tables: set<string>, name: string): string {
    var key := Upper(name);
    if '.' in key || key in tables then key else FindInPath(path, tables, key)
  }

  function Resolve(c: Catalog, name: string): string {
    ResolveName(c.searchPath, c.tables.Keys, name)
  }

  lemma EmptyPathResolves(c: Catalog, name: string)
    ensures c.searchPath == [] ==> Resolve(c, name) == Upper(name)
  {
  }

  /** A name without a dot that is no table stands for the first schema of the path that has it, and else for itself. */
  lemma {:induction false} ResolvesToFirst(path: seq<string>, tables: set<string>, name: string, i: nat)
    requires '.' !in Upper(name) && Upper(name) !in tables && i <= |path|
    requires forall j | 0 <= j < i :: Qualify(path[j], Upper(name)) !in tables
    ensures i < |path| && Qualify(path[i], Upper(name)) in tables ==> ResolveName(path, tables, name) == Qualify(path[i], Upper(name))
    ensures i == |path| ==> ResolveName(path, tables, name) == Upper(name)
    decreases i
  {
    hide Upper, Qualify;
    if i > 0 {
      forall j | 0 <= j < i - 1
        ensures Qualify(path[1..][j], Upper(name)) !in tables
      {
        assert path[1..][j] == path[j + 1];
      }
      ResolvesToFirst(path[1..], tables, name, i - 1);
    }
  }

  // ---------- Operations ----------

  datatype Op =
    | CreateSchema(name: string, ifNotExists: bool, options: Options)
    | DropSchema(name: string, ifExists: bool, cascade: bool)
    | UndropSchema(name: string, ifNotExists: bool)
    | AlterSchema(name: string, options: Options)
    | SetSearchPath(path: seq<string>)
    | CreateTable(name: string, table: Stored)
    | DropTable(name: string)
    | RenameTable(oldName: string, newName: string)
    | ReplaceTable(name: string, table: Stored)
    | CreateOrReplaceTable(name: string, table: Stored)
    | UpdateTable(name: string, table: Stored)
    | SetDefaults(name: string, columnDefaults: seq<ColumnDefault>)
    | BeginTransaction
    | CommitTransaction
    | RollbackTransaction

  /** The state an operation leaves, and whether it succeeds. */
  datatype Effect = Effect(catalog: Catalog, ok: bool)

  function TablesUnder(c: Catalog, key: string): set<string> {
    set t | t in c.tables && Under(t, key)
  }

  function CreateSchemaOp(c: Catalog, key: string, ifNotExists: bool, options: Options): Effect {
    if key in c.schemas then Effect(c, ifNotExists)
    else Effect(c.(dropped := c.dropped - {key}, schemas := c.schemas + {key}, metadata := c.metadata[key := options]), true)
  }

  function DroppedData(kind: Kind, c: Catalog, key: string): Dropped {
    Dropped(if key in c.metadata then c.metadata[key] else map[],
            map t | t in c.tables && Under(t, key) :: c.tables[t],
            if kind.Plain? then map[] else map t | t in c.defaults && t in c.tables && Under(t, key) :: c.defaults[t])
  }

  function DropSchemaOp(kind: Kind, c: Catalog, key: string, ifExists: bool, cascade: bool): Effect {
    var inside := TablesUnder(c, key);
    if key !in c.schemas then Effect(c, ifExists)
    else if inside != {} && !cascade then Effect(c, false)
    else
      var data := DroppedData(kind, c, key);
      Effect(c.(tables := c.tables - inside,
                defaults := c.defaults - data.defaults.Keys,
                schemas := c.schemas - {key},
                metadata := c.metadata - {key},
                dropped := c.dropped[key := data]), true)
  }

  function UndropSchemaOp(kind: Kind, c: Catalog, key: string, ifNotExists: bool): Effect {
    if key in c.schemas then Effect(c, ifNotExists)
    else if key in c.dropped then
      var data := c.dropped[key];
      Effect(c.(tables := c.tables + data.tables,
                defaults := if kind.Plain? then c.defaults else c.defaults + data.defaults,
                schemas := c.schemas + {key},
                metadata := c.metadata[key := data.metadata],
                dropped := c.dropped - {key}), true)
    else Effect(c, ifNotExists)
  }

  function BeforeDot(key: string): Option<string>
    requires '.' in key
  {
    if key[0] == '.' then Some("")
    else if '.' !in key[1..] then None
    else
      var rest := BeforeDot(key[1..]);
      if rest.None? then None else Some([key[0]] + rest.value)
  }

  /** The schema part of a name with exactly one dot. */
  function SchemaPart(key: string): Option<string> {
    if '.' !in key then None
    else
      var front := BeforeDot(key);
      if front.Some? && |front.value| < |key| && '.' !in key[|front.value| + 1..] then front else None
  }

  /** The plain catalog refuses new tables in a dropped schema. */
  predicate InDroppedSchema(kind: Kind, c: Catalog, key: string) {
    kind.Plain? && SchemaPart(key).Some? && SchemaPart(key).value in c.dropped
  }

  function RollbackOp(kind: Kind, c: Catalog): Effect {
    match c.snapshot
    case None => Effect(c, true)
    case Some(saved) =>
      Effect(c.(snapshot := None, tables := if kind.Plain? then saved else WriteBack(c.tables, saved)), true)
  }

  function Apply(kind: Kind, c: Catalog, op: Op): Effect {
    match op
    case CreateSchema(name, ifNotExists, options) => CreateSchemaOp(c, Upper(name), ifNotExists, options)
    case DropSchema(name, ifExists, cascade) => DropSchemaOp(kind, c, Upper(name), ifExists, cascade)
    case UndropSchema(name, ifNotExists) => UndropSchemaOp(kind, c, Upper(name), ifNotExists)
    case AlterSchema(name, options) =>
      var key := Upper(name);
      if key !in c.schemas then Effect(c, false)
      else if key in c.metadata then Effect(c.(metadata := c.metadata[key := c.metadata[key] + options]), true)
      else Effect(c, true)
    case SetSearchPath(path) => Effect(c.(searchPath := seq(|path|, i requires 0 <= i < |path| => Upper(path[i]))), true)
    case CreateTable(name, table) =>
      var key := Upper(name);
      if InDroppedSchema(kind, c, key) || key in c.tables then Effect(c, false)
      else Effect(c.(tables := c.tables[key := table]), true)
    case DropTable(name) =>
      var key := Resolve(c, name);
      if key in c.tables then Effect(c.(tables := c.tables - {key}), true) else Effect(c, false)
    case RenameTable(oldName, newName) =>
      var oldKey, newKey := Resolve(c, oldName), Upper(newName);
      if oldKey !in c.tables || newKey in c.tables then Effect(c, false)
      else Effect(c.(tables := (c.tables - {oldKey})[newKey := c.tables[oldKey]]), true)
    case ReplaceTable(name, table) =>
      var key := Upper(name);
      if key in c.tables then Effect(c.(tables := c.tables[key := table]), true) else Effect(c, false)
    case CreateOrReplaceTable(name, table) => Effect(c.(tables := c.tables[Upper(name) := table]), true)
    case UpdateTable(name, table) =>
      var key := Upper(name);
      if key in c.tables then Effect(c.(tables := c.tables[key := table]), true) else Effect(c, true)
    case SetDefaults(name, columnDefaults) => Effect(c.(defaults := c.defaults[Upper(name) := columnDefaults]), true)
    case BeginTransaction => Effect(c.(snapshot := Some(c.tables)), true)
    case CommitTransaction => Effect(c.(snapshot := None), true)
    case RollbackTransaction => RollbackOp(kind, c)
  }

  /** ALTER SCHEMA sets the options it names, keeps the others and every other schema's, and fails on a schema that is not there. */
  lemma AlteredOptions(kind: Kind, c: Catalog, name: string, options: Options)
    requires c.schemas == c.metadata.Keys
    ensures var (key, r) := (Upper(name), Apply(kind, c, AlterSchema(name, options)));
            && (r.ok <==> key in c.schemas)
            && r.catalog == c.(metadata := r.catalog.metadata) && r.catalog.metadata.Keys == c.metadata.Keys
            && forall s | s in c.metadata :: var o := r.catalog.metadata[s];
                 if s != key then o == c.metadata[s]
                 else && o.Keys == c.metadata[s].Keys + options.Keys
                      && forall k | k in o :: o[k] == if k in options then options[k] else c.metadata[s][k]
  {
    hide Upper;
  }

  function Run(kind: Kind, c: Catalog, ops: seq<Op>): Catalog
    decreases |ops|
  {
    if ops == [] then c else Run(kind, Apply(kind, c, ops[0]).catalog, ops[1..])
  }

  // ---------- Live schemas and dropped ones ----------

  /** Live schemas are those with metadata, and no schema is both live and dropped. */
  ghost predicate SchemasConsistent(c: Catalog) {
    c.schemas == c.metadata.Keys && c.schemas !! c.dropped.Keys
  }

  lemma ApplyKeepsSchemas(kind: Kind, c: Catalog, op: Op)
    requires SchemasConsistent(c)
    ensures SchemasConsistent(Apply(kind, c, op).catalog)
  {
    hide Upper, Resolve, Under, InDroppedSchema, DroppedData, TablesUnder;
  }

  /** Over every run of operations, from the empty catalog or any consistent one. */
  lemma {:induction false} RunKeepsSchemas(kind: Kind, c: Catalog, ops: seq<Op>)
    requires SchemasConsistent(c)
    ensures SchemasConsistent(Run(kind, c, ops))
    decreases |ops|
  {
    hide Apply, SchemasConsistent;
    if ops != [] {
      ApplyKeepsSchemas(kind, c, ops[0]);
      RunKeepsSchemas(kind, Apply(kind, c, ops[0]).catalog, ops[1..]);
    }
  }

  // ---------- Table keys ----------

  ghost predicate UpperKeys(db: Database) {
    forall k | k in db :: Upper(k) == k
  }

  /** Every table key, live, dropped or saved by a transaction, is upper-cased. */
  ghost predicate KeysUpper(c: Catalog) {
    && UpperKeys(c.tables)
    && (forall s | s in c.dropped :: UpperKeys(c.dropped[s].tables))
    && (c.snapshot.Some? ==> UpperKeys(c.snapshot.value))
  }

  lemma ApplyKeepsUpper(kind: Kind, c: Catalog, op: Op)
    requires KeysUpper(c)
    ensures KeysUpper(Apply(kind, c, op).catalog)
  {
    hide Upper, Resolve, Under, InDroppedSchema, UpperKeys;
    match op
    case CreateTable(name, t) => KeyAdded(c.tables, name, t);
    case DropTable(name) => KeysKept(c.tables, c.tables - {Resolve(c, name)});
    case RenameTable(oldName, name) =>
      var rest := c.tables - {Resolve(c, oldName)};
      KeysKept(c.tables, rest);
      if Resolve(c, oldName) in c.tables {
        KeyAdded(rest, name, c.tables[Resolve(c, oldName)]);
      }
    case ReplaceTable(name, t) => KeyAdded(c.tables, name, t);
    case CreateOrReplaceTable(name, t) => KeyAdded(c.tables, name, t);
    case UpdateTable(name, t) => KeyAdded(c.tables, name, t);
    case DropSchema(_, _, _) => DropKeepsUpper(kind, c, op);
    case UndropSchema(_, _) => DropKeepsUpper(kind, c, op);
    case RollbackTransaction => DropKeepsUpper(kind, c, op);
    case _ =>
  }

  lemma KeyAdded(db: Database, name: string, t: Stored)
    requires UpperKeys(db)
    ensures UpperKeys(db[Upper(name) := t])
  {
    hide Upper;
    UpperIdempotent(name);
  }

  lemma KeysKept(db: Database, kept: Database)
    requires UpperKeys(db) && kept.Keys <= db.Keys
    ensures UpperKeys(kept)
  {
    hide Upper;
  }

  lemma DropKeepsUpper(kind: Kind, c: Catalog, op: Op)
    requires KeysUpper(c) && (op.DropSchema? || op.UndropSchema? || op.RollbackTransaction?)
    ensures KeysUpper(Apply(kind, c, op).catalog)
  {
    hide Upper, Resolve, Under, InDroppedSchema;
  }

  lemma {:induction false} RunKeepsUpper(kind: Kind, c: Catalog, ops: seq<Op>)
    requires KeysUpper(c)
    ensures KeysUpper(Run(kind, c, ops))
    decreases |ops|
  {
    hide Apply, KeysUpper;
    if ops != [] {
      ApplyKeepsUpper(kind, c, ops[0]);
      RunKeepsUpper(kind, Apply(kind, c, ops[0]).catalog, ops[1..]);
    }
  }

  // ---------- Drop, then undrop ----------

  /** Two schema keys one of which lies inside the other share table names. */
  predicate Related(a: string, b: string) {
    a == b || Under(a, b) || Under(b, a)
  }

  /** The operation could reach a name under a schema, or the schema itself. */
  predicate Touches(c: Catalog, op: Op, schema: string) {
    match op
    case CreateSchema(name, _, _) => Related(Upper(name), schema)
    case DropSchema(name, _, _) => Related(Upper(name), schema)
    case UndropSchema(name, _) => Related(Upper(name), schema)
    case AlterSchema(name, _) => Related(Upper(name), schema)
    case SetSearchPath(_) => false
    case CreateTable(name, _) => Under(Upper(name), schema)
    case DropTable(name) => Under(Resolve(c, name), schema)
    case RenameTable(oldName, newName) => Under(Resolve(c, oldName), schema) || Under(Upper(newName), schema)
    case ReplaceTable(name, _) => Under(Upper(name), schema)
    case CreateOrReplaceTable(name, _) => Under(Upper(name), schema)
    case UpdateTable(name, _) => Under(Upper(name), schema)
    case SetDefaults(name, _) => Under(Upper(name), schema)
    case _ => false
  }

  /** Rolling the plain catalog back replaces the whole table map by the snapshot. */
  predicate KeepsAway(kind: Kind, c: Catalog, op: Op, schema: string) {
    && !Touches(c, op, schema)
    && (kind.Plain? && op.RollbackTransaction? && c.snapshot.Some? ==> forall t | t in c.snapshot.value :: !Under(t, schema))
  }

  ghost predicate RunKeepsAway(kind: Kind, c: Catalog, ops: seq<Op>, schema: string)
    decreases |ops|
  {
    ops == [] || (KeepsAway(kind, c, ops[0], schema) && RunKeepsAway(kind, Apply(kind, c, ops[0]).catalog, ops[1..], schema))
  }

  /** A schema that is dropped, its data kept, and nothing under its name. */
  ghost predicate Gone(c: Catalog, schema: string, data: Dropped) {
    && schema !in c.schemas
    && schema in c.dropped && c.dropped[schema] == data
    && forall t | t in c.tables :: !Under(t, schema)
  }

  lemma DropMakesGone(kind: Kind, c: Catalog, name: string, ifExists: bool)
    requires Upper(name) in c.schemas
    ensures var e := Apply(kind, c, DropSchema(name, ifExists, true));
            e.ok && Gone(e.catalog, Upper(name), DroppedData(kind, c, Upper(name)))
  {
    hide Under, Upper;
  }

  /** What is kept for a dropped schema is tables of that schema, and defaults of those tables. */
  ghost predicate WellKept(key: string, data: Dropped) {
    (forall t | t in data.tables :: Under(t, key)) && data.defaults.Keys <= data.tables.Keys
  }

  ghost predicate DroppedApart(c: Catalog) {
    forall k | k in c.dropped :: WellKept(k, c.dropped[k])
  }

  lemma ApplyKeepsApart(kind: Kind, c: Catalog, op: Op)
    requires DroppedApart(c)
    ensures DroppedApart(Apply(kind, c, op).catalog)
  {
    hide Under, Upper, Resolve, InDroppedSchema;
  }

  lemma {:induction false} RunKeepsApart(kind: Kind, c: Catalog, ops: seq<Op>)
    requires DroppedApart(c)
    ensures DroppedApart(Run(kind, c, ops))
    decreases |ops|
  {
    hide Apply, DroppedApart;
    if ops != [] {
      ApplyKeepsApart(kind, c, ops[0]);
      RunKeepsApart(kind, Apply(kind, c, ops[0]).catalog, ops[1..]);
    }
  }

  /** Two schemas with a common table name are one inside the other. */
  lemma SharedTableRelated(t: string, a: string, b: string)
    requires Under(t, a) && Under(t, b)
    ensures Related(a, b)
  {
    var x, y := a + ".", b + ".";
    if |a| == |b| {
      assert a == t[..|a|] == b;
    } else if |a| < |b| {
      assert x == t[..|x|];
      assert b == t[..|b|];
      assert x <= b;
    } else {
      assert y == t[..|y|];
      assert a == t[..|a|];
      assert y <= a;
    }
  }

  /** Data kept for an unrelated schema holds no table of this one. */
  lemma KeptElsewhere(c: Catalog, key: string, schema: string)
    requires DroppedApart(c) && key in c.dropped && !Related(key, schema)
    ensures forall t | t in c.dropped[key].tables :: !Under(t, schema)
    ensures forall t | t in c.dropped[key].defaults :: !Under(t, schema)
  {
    hide Under, Related;
    assert WellKept(key, c.dropped[key]);
    forall t | t in c.dropped[key].tables
      ensures !Under(t, schema)
    {
      if Under(t, schema) {
        SharedTableRelated(t, key, schema);
      }
    }
  }

  lemma StaysGone(kind: Kind, c: Catalog, op: Op, schema: string, data: Dropped)
    requires Gone(c, schema, data) && DroppedApart(c) && KeepsAway(kind, c, op, schema)
    ensures Gone(Apply(kind, c, op).catalog, schema, data)
  {
    hide Upper, Resolve, InDroppedSchema, DroppedData, DroppedApart, Under;
    if op.UndropSchema? && Upper(op.name) in c.dropped {
      KeptElsewhere(c, Upper(op.name), schema);
    }
  }

  lemma {:induction false} RunStaysGone(kind: Kind, c: Catalog, ops: seq<Op>, schema: string, data: Dropped)
    requires Gone(c, schema, data) && DroppedApart(c) && RunKeepsAway(kind, c, ops, schema)
    ensures Gone(Run(kind, c, ops), schema, data)
    decreases |ops|
  {
    hide Gone, DroppedApart, KeepsAway, Apply;
    if ops != [] {
      StaysGone(kind, c, ops[0], schema, data);
      ApplyKeepsApart(kind, c, ops[0]);
      RunStaysGone(kind, Apply(kind, c, ops[0]).catalog, ops[1..], schema, data);
    }
  }

  /** What a catalog holds under a schema: the tables, and the column defaults of those tables. */
  function TablesOf(c: Catalog, schema: string): Database {
    map t | t in c.tables && Under(t, schema) :: c.tables[t]
  }

  function DefaultsOf(c: Catalog, schema: string): map<string, seq<ColumnDefault>> {
    map t | t in c.tables && t in c.defaults && Under(t, schema) :: c.defaults[t]
  }

  /** What a catalog holds outside it. */
  function TablesOutside(c: Catalog, schema: string): Database {
    map t | t in c.tables && !Under(t, schema) :: c.tables[t]
  }

  function DefaultsOutside(c: Catalog, schema: string): map<string, seq<ColumnDefault>> {
    map t | t in c.defaults && !Under(t, schema) :: c.defaults[t]
  }

  /** The defaults the kept tables have once they are back: those kept with them, and those never taken away. */
  function DefaultsBack(kind: Kind, c: Catalog, data: Dropped): map<string, seq<ColumnDefault>> {
    var all := if kind.Plain? then c.defaults else c.defaults + data.defaults;
    map t | t in data.tables && t in all :: all[t]
  }

  lemma UndropRestores(kind: Kind, c: Catalog, schema: string, data: Dropped, ifNotExists: bool)
    requires Gone(c, schema, data) && WellKept(schema, data)
    ensures var e := UndropSchemaOp(kind, c, schema, ifNotExists);
            && e.ok
            && schema in e.catalog.schemas && schema in e.catalog.metadata && e.catalog.metadata[schema] == data.metadata
            && TablesOf(e.catalog, schema) == data.tables
            && DefaultsOf(e.catalog, schema) == DefaultsBack(kind, c, data)
            && TablesOutside(e.catalog, schema) == TablesOutside(c, schema)
            && DefaultsOutside(e.catalog, schema) == DefaultsOutside(c, schema)
  {
    hide Under, DefaultsBack;
    UndropTables(kind, c, schema, data, ifNotExists);
    UndropDefaults(kind, c, schema, data, ifNotExists);
  }

  lemma UndropTables(kind: Kind, c: Catalog, schema: string, data: Dropped, ifNotExists: bool)
    requires Gone(c, schema, data) && WellKept(schema, data)
    ensures var d := UndropSchemaOp(kind, c, schema, ifNotExists).catalog;
            TablesOf(d, schema) == data.tables && TablesOutside(d, schema) == TablesOutside(c, schema)
  {
    hide Under;
    var d := UndropSchemaOp(kind, c, schema, ifNotExists).catalog;
    assert d.tables == c.tables + data.tables;
  }

  lemma UndropDefaults(kind: Kind, c: Catalog, schema: string, data: Dropped, ifNotExists: bool)
    requires Gone(c, schema, data) && WellKept(schema, data)
    ensures var d := UndropSchemaOp(kind, c, schema, ifNotExists).catalog;
            DefaultsOf(d, schema) == DefaultsBack(kind, c, data) && DefaultsOutside(d, schema) == DefaultsOutside(c, schema)
  {
    hide Under;
    var d := UndropSchemaOp(kind, c, schema, ifNotExists).catalog;
    assert d.defaults == if kind.Plain? then c.defaults else c.defaults + data.defaults;
    assert forall t :: t in d.tables && Under(t, schema) <==> t in data.tables;
  }

  /** Entries under a schema are the same in both. */
  ghost predicate SameUnder(a: map<string, seq<ColumnDefault>>, b: map<string, seq<ColumnDefault>>, schema: string) {
    forall t | Under(t, schema) :: (t in a <==> t in b) && (t in a ==> a[t] == b[t])
  }

  /** Defaults under a schema are only changed by operations that touch it. */
  lemma DefaultsStay(kind: Kind, c: Catalog, op: Op, schema: string)
    requires DroppedApart(c) && KeepsAway(kind, c, op, schema)
    ensures SameUnder(c.defaults, Apply(kind, c, op).catalog.defaults, schema)
  {
    hide Upper, Resolve, InDroppedSchema, DroppedApart, Under;
    if op.UndropSchema? && Upper(op.name) in c.dropped {
      KeptElsewhere(c, Upper(op.name), schema);
    } else if op.DropSchema? {
      forall t | Under(t, schema)
        ensures !Under(t, Upper(op.name))
      {
        if Under(t, Upper(op.name)) {
          SharedTableRelated(t, Upper(op.name), schema);
        }
      }
    }
  }

  lemma {:induction false} RunDefaultsStay(kind: Kind, c: Catalog, ops: seq<Op>, schema: string)
    requires DroppedApart(c) && RunKeepsAway(kind, c, ops, schema)
    ensures SameUnder(c.defaults, Run(kind, c, ops).defaults, schema)
    decreases |ops|
  {
    hide DroppedApart, KeepsAway, Apply, Under;
    if ops != [] {
      DefaultsStay(kind, c, ops[0], schema);
      ApplyKeepsApart(kind, c, ops[0]);
      RunDefaultsStay(kind, Apply(kind, c, ops[0]).catalog, ops[1..], schema);
    }
  }

  /** The plain catalog leaves defaults where they are, the concurrent one keeps them with the tables: either way they come back. */
  lemma DefaultsComeBack(kind: Kind, c: Catalog, schema: string, after: Catalog, before: Catalog)
    requires after.defaults == c.defaults - DroppedData(kind, c, schema).defaults.Keys
    requires SameUnder(after.defaults, before.defaults, schema)
    ensures DefaultsBack(kind, before, DroppedData(kind, c, schema)) == DefaultsOf(c, schema)
  {
    hide Under;
  }

  lemma DropTakesDefaults(kind: Kind, c: Catalog, name: string, ifExists: bool)
    requires Upper(name) in c.schemas
    ensures Apply(kind, c, DropSchema(name, ifExists, true)).catalog.defaults == c.defaults - DroppedData(kind, c, Upper(name)).defaults.Keys
  {
    hide Under, Upper;
  }

  /**
   Dropping a schema with CASCADE, then any run that keeps away from its name, then UNDROP: in both
   catalogs its tables, their column defaults and its metadata are exactly what they were, and
   everything outside the schema is as the run left it.
   */
  lemma DropUndropRestores(kind: Kind, c: Catalog, name: string, ifExists: bool, ops: seq<Op>, again: string, ifNotExists: bool)
    requires SchemasConsistent(c) && DroppedApart(c)
    requires Upper(name) in c.schemas && Upper(again) == Upper(name)
    requires RunKeepsAway(kind, Apply(kind, c, DropSchema(name, ifExists, true)).catalog, ops, Upper(name))
    ensures var schema := Upper(name);
            var before := Run(kind, Apply(kind, c, DropSchema(name, ifExists, true)).catalog, ops);
            var e := Apply(kind, before, UndropSchema(again, ifNotExists));
            && e.ok
            && TablesOf(e.catalog, schema) == TablesOf(c, schema)
            && DefaultsOf(e.catalog, schema) == DefaultsOf(c, schema)
            && schema in c.metadata && schema in e.catalog.schemas && schema in e.catalog.metadata && e.catalog.metadata[schema] == c.metadata[schema]
            && TablesOutside(e.catalog, schema) == TablesOutside(before, schema)
            && DefaultsOutside(e.catalog, schema) == DefaultsOutside(before, schema)
  {
    var schema, data := Upper(name), DroppedData(kind, c, Upper(name));
    var drop := DropSchema(name, ifExists, true);
    var after := Apply(kind, c, drop).catalog;
    var before := Run(kind, after, ops);
    assert WellKept(schema, data) && data.tables == TablesOf(c, schema) && schema in c.metadata && data.metadata == c.metadata[schema];
    assert Apply(kind, before, UndropSchema(again, ifNotExists)) == UndropSchemaOp(kind, before, schema, ifNotExists);
    hide *;
    DropMakesGone(kind, c, name, ifExists);
    ApplyKeepsApart(kind, c, drop);
    RunStaysGone(kind, after, ops, schema, data);
    DropTakesDefaults(kind, c, name, ifExists);
    RunDefaultsStay(kind, after, ops, schema);
    DefaultsComeBack(kind, c, schema, after, before);
    UndropRestores(kind, before, schema, data, ifNotExists);
  }

  // ---------- Transactions ----------

  predicate InsideTransaction(ops: seq<Op>) {
    forall op | op in ops :: !op.BeginTransaction? && !op.CommitTransaction? && !op.RollbackTransaction?
  }

  lemma {:induction false} SnapshotKept(kind: Kind, c: Catalog, ops: seq<Op>)
    requires InsideTransaction(ops)
    ensures Run(kind, c, ops).snapshot == c.snapshot
    decreases |ops|
  {
    if ops != [] {
      assert ops[0] in ops && InsideTransaction(ops[1..]);
      OneKeepsSnapshot(kind, c, ops[0]);
      hide Apply;
      SnapshotKept(kind, Apply(kind, c, ops[0]).catalog, ops[1..]);
    }
  }

  lemma OneKeepsSnapshot(kind: Kind, c: Catalog, op: Op)
    requires !op.BeginTransaction? && !op.CommitTransaction? && !op.RollbackTransaction?
    ensures Apply(kind, c, op).catalog.snapshot == c.snapshot
  {
    hide Upper, Resolve, Under, InDroppedSchema, DroppedData, TablesUnder;
  }

  /** In the plain catalog, rolling back after any run restores the table map exactly: created tables go, dropped ones return. */
  lemma PlainRollbackExact(c: Catalog, ops: seq<Op>)
    requires InsideTransaction(ops)
    ensures var begun := Apply(Plain, c, BeginTransaction).catalog;
            Apply(Plain, Run(Plain, begun, ops), RollbackTransaction).catalog.tables == c.tables
  {
    SnapshotKept(Plain, Apply(Plain, c, BeginTransaction).catalog, ops);
    hide Run;
  }

  /**
   In the concurrent catalog rolling back writes old contents into tables that still exist: it restores the
   table map exactly when the run left the names as they were.
   */
  lemma ConcurrentRollbackIff(c: Catalog, ops: seq<Op>)
    requires InsideTransaction(ops)
    ensures var begun := Apply(Concurrent, c, BeginTransaction).catalog;
            var before := Run(Concurrent, begun, ops);
            Apply(Concurrent, before, RollbackTransaction).catalog.tables == c.tables <==> before.tables.Keys == c.tables.Keys
  {
    var begun := Apply(Concurrent, c, BeginTransaction).catalog;
    var before := Run(Concurrent, begun, ops);
    SnapshotKept(Concurrent, begun, ops);
    hide Run;
    var after := Apply(Concurrent, before, RollbackTransaction).catalog;
    assert after.tables == WriteBack(before.tables, c.tables);
    assert after.tables.Keys == before.tables.Keys;
    if before.tables.Keys == c.tables.Keys {
      assert after.tables == c.tables;
    }
  }

  // ---------- Lock sets ----------

  /** The private copies a statement works on. */
  datatype LockSet = LockSet(readTables: Database, writeTables: Database)

  /** Every table that must exist does, under its resolved name. */
  predicate CanAcquire(c: Catalog, accesses: map<string, AccessType>) {
    forall n | n in accesses && !accesses[n].WriteOptional? :: Resolve(c, n) in c.tables
  }

  function ResolvedNames(c: Catalog, accesses: map<string, AccessType>, forReading: bool): set<string> {
    set n | n in accesses && accesses[n].Read? == forReading :: Resolve(c, n)
  }

  /** Copies are stored under resolved names. */
  function Acquired(c: Catalog, accesses: map<string, AccessType>): LockSet {
    LockSet(map k | k in ResolvedNames(c, accesses, true) && k in c.tables :: c.tables[k],
            map k | k in ResolvedNames(c, accesses, false) && k in c.tables :: c.tables[k])
  }

  /** Lookups use the upper-cased name as written, and prefer the copy for writing. */
  function Lookup(l: LockSet, name: string): Option<Stored> {
    var key := Upper(name);
    if key in l.writeTables then Some(l.writeTables[key])
    else if key in l.readTables then Some(l.readTables[key])
    else None
  }

  /**
   A lookup right after acquiring succeeds exactly when some recorded name resolves to the upper-cased name
   itself, and then gives the catalog's table.
   */
  lemma LookupIff(c: Catalog, accesses: map<string, AccessType>, name: string)
    ensures Lookup(Acquired(c, accesses), name).Some?
            <==> Upper(name) in c.tables && exists m :: m in accesses && Resolve(c, m) == Upper(name)
    ensures Lookup(Acquired(c, accesses), name).Some? ==> Lookup(Acquired(c, accesses), name) == Some(c.tables[Upper(name)])
  {
    hide Upper, Resolve;
    var key := Upper(name);
    if m :| m in accesses && Resolve(c, m) == key {
      assert key in ResolvedNames(c, accesses, accesses[m].Read?);
    }
  }

  /** With an empty search path every name recorded as read or written is found once acquiring succeeds. */
  lemma AcquiredIsFound(c: Catalog, accesses: map<string, AccessType>, name: string)
    requires c.searchPath == [] && CanAcquire(c, accesses)
    requires name in accesses && !accesses[name].WriteOptional?
    ensures Lookup(Acquired(c, accesses), name) == Some(c.tables[Upper(name)]) && Upper(name) in c.tables
  {
    EmptyPathResolves(c, name);
    hide Upper, Resolve;
    LookupIff(c, accesses, name);
  }

  /**
   With a search path it may not be: `T` is found as `S.T` when acquired, and not found when looked up in the
   lock set.  A scan then falls back on the catalog; an INSERT, UPDATE or DELETE, which looks in the lock set
   only, fails.
   */
  lemma SearchPathMisses(t: Stored, access: AccessType)
    ensures var c := EMPTY.(tables := map["S.T" := t], searchPath := ["S"]);
            var accesses := map["T" := access];
            CanAcquire(c, accesses) && Lookup(Acquired(c, accesses), "T") == None
  {
    var c := EMPTY.(tables := map["S.T" := t], searchPath := ["S"]);
    var accesses := map["T" := access];
    assert Upper("T") == "T";
    assert Qualify("S", "T") == "S.T";
    assert FindInPath(["S"], {"S.T"}, "T") == "S.T";
    assert c.tables.Keys == {"S.T"};
    assert Resolve(c, "T") == "S.T";
    LookupIff(c, accesses, "T");
  }

  /** Committing writes back through `UpdateTable`, which keeps the table names. */
  function CommitWrites(c: Catalog, l: LockSet): Catalog {
    c.(tables := WriteBack(c.tables, l.writeTables))
  }

  /** A lock set acquired and committed unchanged leaves the catalog as it is. */
  lemma AcquireCommitIdentity(c: Catalog, accesses: map<string, AccessType>)
    ensures CommitWrites(c, Acquired(c, accesses)) == c
  {
    hide Resolve;
    assert WriteBack(c.tables, Acquired(c, accesses).writeTables) == c.tables;
  }
}

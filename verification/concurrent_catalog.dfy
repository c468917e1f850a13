/**
 The catalog and lock-set objects of `crates/executor/src/concurrent_catalog.rs`, and the plain
 catalog of `crates/executor/src/catalog.rs`: each method has the effect `CatalogState` gives it.
 */
module ConcurrentCatalog {
  import opened Wrappers
  import opened Names
  import opened Ir
  import opened TableProtocol
  import opened CatalogState

  /** The entries of a map at the given keys. */
  function Restrict<T>(m: map<string, T>, keys: set<string>): map<string, T> {
    map k | k in m && k in keys :: m[k]
  }

  /** The entries at `done` have been moved from one map to another. */
  ghost predicate Moved<T>(before: map<string, T>, now: map<string, T>, taken: map<string, T>, done: set<string>) {
    now == before - done && taken == Restrict(before, done)
  }

  lemma MoveOne<T>(before: map<string, T>, now: map<string, T>, taken: map<string, T>, done: set<string>, k: string)
    requires Moved(before, now, taken, done) && k !in done
    ensures k in now <==> k in before
    ensures k in now ==> Moved(before, now - {k}, taken[k := now[k]], done + {k})
    ensures k !in now ==> Moved(before, now, taken, done + {k})
  {
    assert (before - done) - {k} == before - (done + {k});
    if k !in before {
      assert before - (done + {k}) == before - done;
    }
  }

  /** Some tables are written already, those in `left` are not. */
  function WriteSome(db: Database, writes: Database, left: set<string>): Database {
    map t | t in db :: if t in writes && t !in left then writes[t] else db[t]
  }

  lemma WriteEnds(db: Database, writes: Database)
    ensures WriteSome(db, writes, writes.Keys) == db
    ensures WriteSome(db, writes, {}) == WriteBack(db, writes)
  {
  }

  lemma WriteOneMore(db: Database, writes: Database, left: set<string>, k: string)
    requires k in left && k in writes
    ensures var now := WriteSome(db, writes, left);
            WriteSome(db, writes, left - {k}) == if k in now then now[k := writes[k]] else now
  {
  }

  /** What dropping keeps of a schema, and leaves behind. */
  lemma KeptData(c: Catalog, key: string, inside: set<string>)
    requires inside == TablesUnder(c, key)
    ensures var data := DroppedData(Concurrent, c, key);
            && Restrict(c.tables, inside) == data.tables && Restrict(c.defaults, inside) == data.defaults
            && c.defaults - inside == c.defaults - data.defaults.Keys
  {
    hide Under;
  }

  class SharedCatalog {
    var tables: Database
    var defaults: map<string, seq<ColumnDefault>>
    var schemas: set<string>
    var metadata: map<string, Options>
    var searchPath: seq<string>
    var dropped: map<string, Dropped>
    var snapshot: Option<Database>

    constructor ()
      ensures State() == EMPTY
    {
      tables, defaults, schemas, metadata, searchPath, dropped, snapshot := map[], map[], {}, map[], [], map[], None;
    }

    function State(): Catalog
      reads this
    {
      Catalog(tables, defaults, schemas, metadata, searchPath, dropped, snapshot)
    }

    method ResolveTableName(name: string) returns (r: string)
      ensures r == Resolve(State(), name)
    {
      var key := Upper(name);
      if '.' in key || key in tables {
        return key;
      }
      for i := 0 to |searchPath|
        invariant FindInPath(searchPath, tables.Keys, key) == FindInPath(searchPath[i..], tables.Keys, key)
      {
        assert searchPath[i..][0] == searchPath[i] && searchPath[i..][1..] == searchPath[i + 1..];
        var qualified := Qualify(searchPath[i], key);
        if qualified in tables {
          return qualified;
        }
      }
      return key;
    }

    // ---------- Schemas ----------

    method CreateSchema(name: string, ifNotExists: bool, options: Options) returns (ok: bool)
      modifies this
      ensures Effect(State(), ok) == Apply(Concurrent, old(State()), Op.CreateSchema(name, ifNotExists, options))
    {
      var key := Upper(name);
      if key in schemas {
        return ifNotExists;
      }
      dropped := dropped - {key};
      schemas := schemas + {key};
      metadata := metadata[key := options];
      return true;
    }

    /** Moves the tables under a schema, and their defaults, into what is kept for UNDROP. */
    method TakeTables(inside: set<string>) returns (takenTables: Database, takenDefaults: map<string, seq<ColumnDefault>>)
      requires inside <= tables.Keys
      modifies this`tables, this`defaults
      ensures tables == old(tables) - inside && takenTables == Restrict(old(tables), inside)
      ensures defaults == old(defaults) - inside && takenDefaults == Restrict(old(defaults), inside)
    {
      takenTables, takenDefaults := map[], map[];
      var left := inside;
      ghost var done: set<string> := {};
      while left != {}
        invariant left !! done && left + done == inside && inside <= old(tables).Keys
        invariant Moved(old(tables), tables, takenTables, done) && Moved(old(defaults), defaults, takenDefaults, done)
        decreases |left|
      {
        hide Moved;
        var t :| t in left;
        MoveOne(old(tables), tables, takenTables, done, t);
        MoveOne(old(defaults), defaults, takenDefaults, done, t);
        takenTables := takenTables[t := tables[t]];
        tables := tables - {t};
        if t in defaults {
          takenDefaults := takenDefaults[t := defaults[t]];
          defaults := defaults - {t};
        }
        left, done := left - {t}, done + {t};
      }
      assert done == inside;
    }

    method DropSchema(name: string, ifExists: bool, cascade: bool) returns (ok: bool)
      modifies this
      ensures Effect(State(), ok) == Apply(Concurrent, old(State()), Op.DropSchema(name, ifExists, cascade))
    {
      hide Upper, Under, Restrict;
      var key := Upper(name);
      if key !in schemas {
        return ifExists;
      }
      var inside := set t | t in tables && Under(t, key);
      assert inside == TablesUnder(State(), key);
      if inside != {} && !cascade {
        return false;
      }
      var takenTables, takenDefaults := TakeTables(inside);
      schemas := schemas - {key};
      var kept := if key in metadata then metadata[key] else map[];
      metadata := metadata - {key};
      KeptData(old(State()), key, inside);
      dropped := dropped[key := Dropped(kept, takenTables, takenDefaults)];
      return true;
    }

    method UndropSchema(name: string, ifNotExists: bool) returns (ok: bool)
      modifies this
      ensures Effect(State(), ok) == Apply(Concurrent, old(State()), Op.UndropSchema(name, ifNotExists))
    {
      var key := Upper(name);
      if key in schemas {
        return ifNotExists;
      }
      if key !in dropped {
        return ifNotExists;
      }
      var data := dropped[key];
      dropped := dropped - {key};
      schemas := schemas + {key};
      metadata := metadata[key := data.metadata];
      tables := tables + data.tables;
      defaults := defaults + data.defaults;
      return true;
    }

    method AlterSchemaOptions(name: string, options: Options) returns (ok: bool)
      modifies this
      ensures Effect(State(), ok) == Apply(Concurrent, old(State()), AlterSchema(name, options))
    {
      var key := Upper(name);
      if key !in schemas {
        return false;
      }
      if key in metadata {
        metadata := metadata[key := metadata[key] + options];
      }
      return true;
    }

    method SetPath(path: seq<string>)
      modifies this
      ensures Effect(State(), true) == Apply(Concurrent, old(State()), SetSearchPath(path))
    {
      searchPath := seq(|path|, i requires 0 <= i < |path| => Upper(path[i]));
    }

    // ---------- Tables ----------

    method CreateTable(name: string, table: Stored) returns (ok: bool)
      modifies this
      ensures Effect(State(), ok) == Apply(Concurrent, old(State()), Op.CreateTable(name, table))
    {
      var key := Upper(name);
      if key in tables {
        return false;
      }
      tables := tables[key := table];
      return true;
    }

    method DropTable(name: string) returns (ok: bool)
      modifies this
      ensures Effect(State(), ok) == Apply(Concurrent, old(State()), Op.DropTable(name))
    {
      var key := ResolveTableName(name);
      if key !in tables {
        return false;
      }
      tables := tables - {key};
      return true;
    }

    method RenameTable(oldName: string, newName: string) returns (ok: bool)
      modifies this
      ensures Effect(State(), ok) == Apply(Concurrent, old(State()), Op.RenameTable(oldName, newName))
    {
      var oldKey := ResolveTableName(oldName);
      var newKey := Upper(newName);
      if oldKey !in tables || newKey in tables {
        return false;
      }
      var handle := tables[oldKey];
      tables := tables - {oldKey};
      tables := tables[newKey := handle];
      return true;
    }

    method ReplaceTable(name: string, table: Stored) returns (ok: bool)
      modifies this
      ensures Effect(State(), ok) == Apply(Concurrent, old(State()), Op.ReplaceTable(name, table))
    {
      var key := Upper(name);
      if key !in tables {
        return false;
      }
      tables := tables[key := table];
      return true;
    }

    method CreateOrReplaceTable(name: string, table: Stored)
      modifies this
      ensures Effect(State(), true) == Apply(Concurrent, old(State()), Op.CreateOrReplaceTable(name, table))
    {
      tables := tables[Upper(name) := table];
    }

    method UpdateTable(name: string, table: Stored)
      modifies this`tables
      ensures Effect(State(), true) == Apply(Concurrent, old(State()), Op.UpdateTable(name, table))
    {
      var key := Upper(name);
      if key in tables {
        tables := tables[key := table];
      }
    }

    method SetTableDefaults(name: string, columnDefaults: seq<ColumnDefault>)
      modifies this
      ensures Effect(State(), true) == Apply(Concurrent, old(State()), SetDefaults(name, columnDefaults))
    {
      defaults := defaults[Upper(name) := columnDefaults];
    }

    // ---------- Transactions ----------

    method Begin()
      modifies this
      ensures Effect(State(), true) == Apply(Concurrent, old(State()), BeginTransaction)
    {
      snapshot := Some(tables);
    }

    method Commit()
      modifies this
      ensures Effect(State(), true) == Apply(Concurrent, old(State()), CommitTransaction)
    {
      snapshot := None;
    }

    method Rollback()
      modifies this
      ensures Effect(State(), true) == Apply(Concurrent, old(State()), RollbackTransaction)
    {
      var taken := snapshot;
      snapshot := None;
      if taken.Some? {
        hide WriteSome, WriteBack;
        var left := taken.value.Keys;
        WriteEnds(tables, taken.value);
        while left != {}
          invariant left <= taken.value.Keys
          invariant tables == WriteSome(old(tables), taken.value, left)
          invariant State() == old(State()).(snapshot := None, tables := tables)
          decreases |left|
        {
          var t :| t in left;
          WriteOneMore(old(tables), taken.value, left, t);
          left := left - {t};
          if t in tables {
            tables := tables[t := taken.value[t]];
          }
        }
      }
    }

    // ---------- Lock sets ----------

    /** Copies the tables of an access set, in any order; nothing is kept when a required table is missing. */
    method AcquireTableLocks(accesses: map<string, AccessType>) returns (r: Option<TableLockSet>)
      ensures r.Some? <==> CanAcquire(State(), accesses)
      ensures r.Some? ==> fresh(r.value) && r.value.Copies() == Acquired(State(), accesses)
    {
      hide Resolve, Upper;
      var locks := new TableLockSet();
      var left := accesses.Keys;
      while left != {}
        invariant left <= accesses.Keys && fresh(locks)
        invariant forall n | n in accesses && n !in left && !accesses[n].WriteOptional? :: Resolve(State(), n) in tables
        invariant locks.Copies() == Acquired(State(), Taken(accesses, left))
        decreases |left|
      {
        var n :| n in left;
        var resolved := ResolveTableName(n);
        if resolved !in tables && !accesses[n].WriteOptional? {
          return None;
        }
        ghost var before := left;
        left := left - {n};
        TakenOneMore(State(), accesses, before, n);
        if resolved in tables {
          if accesses[n].Read? {
            locks.AddReadTable(resolved, tables[resolved]);
          } else {
            locks.AddWriteTable(resolved, tables[resolved]);
          }
        }
      }
      assert Taken(accesses, left) == accesses;
      return Some(locks);
    }
  }

  /** The accesses already handled. */
  function Taken(accesses: map<string, AccessType>, left: set<string>): map<string, AccessType> {
    map n | n in accesses && n !in left :: accesses[n]
  }

  lemma NamesOneMore(c: Catalog, accesses: map<string, AccessType>, left: set<string>, n: string, reading: bool)
    requires n in left && left <= accesses.Keys
    ensures ResolvedNames(c, Taken(accesses, left - {n}), reading)
            == ResolvedNames(c, Taken(accesses, left), reading) + (if accesses[n].Read? == reading then {Resolve(c, n)} else {})
  {
    hide Resolve;
    var a, b := Taken(accesses, left), Taken(accesses, left - {n});
    if accesses[n].Read? == reading {
      assert n in b && b[n].Read? == reading;
    }
    forall k | k in ResolvedNames(c, a, reading)
      ensures k in ResolvedNames(c, b, reading)
    {
      var m :| m in a && a[m].Read? == reading && Resolve(c, m) == k;
      assert m in b && b[m] == a[m];
    }
  }

  /** The tables of one name more. */
  lemma CopiesOneMore(db: Database, names: set<string>, more: set<string>, k: string)
    requires more == names + {k}
    ensures (map t | t in more && t in db :: db[t])
            == if k in db then (map t | t in names && t in db :: db[t])[k := db[k]] else (map t | t in names && t in db :: db[t])
  {
  }

  lemma TakenOneMore(c: Catalog, accesses: map<string, AccessType>, left: set<string>, n: string)
    requires n in left && left <= accesses.Keys
    ensures var now, more := Acquired(c, Taken(accesses, left)), Acquired(c, Taken(accesses, left - {n}));
            var k := Resolve(c, n);
            more == if k !in c.tables then now
                    else if accesses[n].Read? then now.(readTables := now.readTables[k := c.tables[k]])
                    else now.(writeTables := now.writeTables[k := c.tables[k]])
  {
    var a, b, k := Taken(accesses, left), Taken(accesses, left - {n}), Resolve(c, n);
    NamesOneMore(c, accesses, left, n, true);
    NamesOneMore(c, accesses, left, n, false);
    hide Resolve, ResolvedNames, Taken;
    if accesses[n].Read? {
      CopiesOneMore(c.tables, ResolvedNames(c, a, true), ResolvedNames(c, b, true), k);
      assert ResolvedNames(c, b, false) == ResolvedNames(c, a, false);
    } else {
      CopiesOneMore(c.tables, ResolvedNames(c, a, false), ResolvedNames(c, b, false), k);
      assert ResolvedNames(c, b, true) == ResolvedNames(c, a, true);
    }
  }

  class TableLockSet {
    var readTables: Database
    var writeTables: Database

    constructor ()
      ensures Copies() == LockSet(map[], map[])
    {
      readTables, writeTables := map[], map[];
    }

    function Copies(): LockSet
      reads this
    {
      LockSet(readTables, writeTables)
    }

    method AddReadTable(name: string, table: Stored)
      modifies this
      ensures Copies() == old(Copies()).(readTables := old(readTables)[name := table])
    {
      readTables := readTables[name := table];
    }

    method AddWriteTable(name: string, table: Stored)
      modifies this
      ensures Copies() == old(Copies()).(writeTables := old(writeTables)[name := table])
    {
      writeTables := writeTables[name := table];
    }

    method GetTable(name: string) returns (r: Option<Stored>)
      ensures r == Lookup(Copies(), name)
    {
      var key := Upper(name);
      if key in writeTables {
        return Some(writeTables[key]);
      }
      if key in readTables {
        return Some(readTables[key]);
      }
      return None;
    }

    /** What a statement changes goes into its copies for writing. */
    method UpdateCopy(name: string, table: Stored)
      modifies this
      ensures Copies() == old(Copies()).(writeTables := old(writeTables)[Upper(name) := table])
    {
      writeTables := writeTables[Upper(name) := table];
    }

    /** Writes every copy back, one table at a time; keys of copies are upper-cased already. */
    method CommitWritesTo(catalog: SharedCatalog)
      requires forall k | k in writeTables :: Upper(k) == k
      modifies catalog`tables
      ensures catalog.State() == CommitWrites(old(catalog.State()), Copies())
    {
      hide Upper, WriteSome, WriteBack;
      var left := writeTables.Keys;
      WriteEnds(catalog.tables, writeTables);
      while left != {}
        invariant left <= writeTables.Keys
        invariant catalog.tables == WriteSome(old(catalog.tables), writeTables, left)
        decreases |left|
      {
        var t :| t in left;
        WriteOneMore(old(catalog.tables), writeTables, left, t);
        left := left - {t};
        catalog.UpdateTable(t, writeTables[t]);
      }
    }
  }

  /** The plain catalog: the parts that differ from the concurrent one. */
  class PlainCatalog {
    var tables: Database
    var defaults: map<string, seq<ColumnDefault>>
    var schemas: set<string>
    var metadata: map<string, Options>
    var searchPath: seq<string>
    var dropped: map<string, Dropped>
    var snapshot: Option<Database>

    constructor ()
      ensures State() == EMPTY
    {
      tables, defaults, schemas, metadata, searchPath, dropped, snapshot := map[], map[], {}, map[], [], map[], None;
    }

    function State(): Catalog
      reads this
    {
      Catalog(tables, defaults, schemas, metadata, searchPath, dropped, snapshot)
    }

    method Begin()
      modifies this
      ensures Effect(State(), true) == Apply(Plain, old(State()), BeginTransaction)
    {
      snapshot := Some(tables);
    }

    method Rollback()
      modifies this
      ensures Effect(State(), true) == Apply(Plain, old(State()), RollbackTransaction)
    {
      var taken := snapshot;
      snapshot := None;
      if taken.Some? {
        tables := taken.value;
      }
    }

    method TakeTables(inside: set<string>) returns (taken: Database)
      requires inside <= tables.Keys
      modifies this`tables
      ensures tables == old(tables) - inside && taken == Restrict(old(tables), inside)
    {
      taken := map[];
      var left := inside;
      ghost var done: set<string> := {};
      while left != {}
        invariant left !! done && left + done == inside && inside <= old(tables).Keys
        invariant Moved(old(tables), tables, taken, done)
        decreases |left|
      {
        hide Moved;
        var t :| t in left;
        MoveOne(old(tables), tables, taken, done, t);
        taken := taken[t := tables[t]];
        tables := tables - {t};
        left, done := left - {t}, done + {t};
      }
      assert done == inside;
    }

    method DropSchema(name: string, ifExists: bool, cascade: bool) returns (ok: bool)
      modifies this
      ensures Effect(State(), ok) == Apply(Plain, old(State()), Op.DropSchema(name, ifExists, cascade))
    {
      hide Upper, Under;
      var key := Upper(name);
      if key !in schemas {
        return ifExists;
      }
      var inside := set t | t in tables && Under(t, key);
      if inside != {} && !cascade {
        return false;
      }
      var taken := TakeTables(inside);
      var kept := if key in metadata then metadata[key] else map[];
      metadata := metadata - {key};
      schemas := schemas - {key};
      ghost var data := DroppedData(Plain, old(State()), key);
      assert taken == data.tables && data.defaults == map[];
      assert defaults - data.defaults.Keys == defaults;
      dropped := dropped[key := Dropped(kept, taken, map[])];
      return true;
    }

    method PutTables(back: Database)
      modifies this`tables
      ensures tables == old(tables) + back
    {
      var left := back.Keys;
      while left != {}
        invariant left <= back.Keys
        invariant tables == old(tables) + (back - left)
        decreases |left|
      {
        var t :| t in left;
        tables := tables[t := back[t]];
        left := left - {t};
      }
      assert back - {} == back;
    }

    method UndropSchema(name: string, ifNotExists: bool) returns (ok: bool)
      modifies this
      ensures Effect(State(), ok) == Apply(Plain, old(State()), Op.UndropSchema(name, ifNotExists))
    {
      hide Upper;
      var key := Upper(name);
      if key in schemas {
        return ifNotExists;
      }
      if key !in dropped {
        return ifNotExists;
      }
      var data := dropped[key];
      dropped := dropped - {key};
      schemas := schemas + {key};
      metadata := metadata[key := data.metadata];
      PutTables(data.tables);
      return true;
    }

    method CreateTable(name: string, table: Stored) returns (ok: bool)
      modifies this
      ensures Effect(State(), ok) == Apply(Plain, old(State()), Op.CreateTable(name, table))
    {
      var key := Upper(name);
      if InDroppedSchema(Plain, State(), key) || key in tables {
        return false;
      }
      tables := tables[key := table];
      return true;
    }
  }
}

/**
 The plan cache of `crates/executor/src/async_executor.rs`: optimized plans are kept by SQL text, and
 the cache is emptied after statements that change what planning sees.
 */
module PlanCache {
  import opened Wrappers

  /** The forms of an optimized plan the two tests of the executor tell apart. */
  datatype PlanForm =
    | TableScan | Sample | Filter | Project | NestedLoopJoin | CrossJoin | HashJoin | HashAggregate | Sort | Limit
    | TopN | Distinct | Union | Intersect | Except | Window | Unnest | Qualify | WithCte | Values | Empty
    | CreateTable | DropTable | AlterTable | Truncate | CreateView | DropView | CreateSchema | DropSchema | UndropSchema
    | AlterSchema | CreateFunction | DropFunction | CreateProcedure | DropProcedure | CreateSnapshot | DropSnapshot
    | Insert | Update | Delete | Merge | Call | ExportData | LoadData | Declare | SetVariable | SetMultipleVariables
    | If | While | Loop | Block | Repeat | For | Return | Raise | ExecuteImmediate | Break | Continue | Assert
    | Grant | Revoke | BeginTransaction | Commit | Rollback | TryCatch | GapFill

  predicate IsCacheable(f: PlanForm) {
    f.TableScan? || f.Sample? || f.Filter? || f.Project? || f.NestedLoopJoin? || f.CrossJoin? || f.HashJoin?
    || f.HashAggregate? || f.Sort? || f.Limit? || f.TopN? || f.Distinct? || f.Union? || f.Intersect? || f.Except?
    || f.Window? || f.Unnest? || f.Qualify? || f.WithCte? || f.Values? || f.Empty?
  }

  predicate InvalidatesCache(f: PlanForm) {
    f.CreateTable? || f.DropTable? || f.AlterTable? || f.Truncate? || f.CreateView? || f.DropView? || f.CreateSchema?
    || f.DropSchema? || f.UndropSchema? || f.AlterSchema? || f.CreateFunction? || f.DropFunction? || f.CreateProcedure?
    || f.DropProcedure? || f.CreateSnapshot? || f.DropSnapshot?
  }

  /**
   What surrounds the cache: the part of the state planning sees, text preprocessing, planning and
   optimizing (`None` for an error), and running a plan, which may fail.
   */
  datatype Engine<!S, !V, !P, !R> = Engine(
    view: S -> V,
    preprocess: string -> string,
    plan: (V, string) -> Option<P>,
    form: P -> PlanForm,
    run: (S, P) -> (S, Option<R>))

  /** What planning sees changes only through successful statements of an invalidating form. */
  ghost predicate Disciplined<S(!new), V, P(!new), R>(e: Engine<S, V, P, R>) {
    forall s, p :: DisciplinedAt(e, s, p)
  }

  ghost predicate DisciplinedAt<S, V, P, R>(e: Engine<S, V, P, R>, s: S, p: P) {
    (InvalidatesCache(e.form(p)) && e.run(s, p).1.Some?) || e.view(e.run(s, p).0) == e.view(s)
  }

  datatype Session<S, P> = Session(state: S, cache: map<string, P>)

  datatype Executed<S, P, R> = Executed(session: Session<S, P>, result: Option<R>)

  /** One call; `evicted` are entries the bounded cache drops to make room, whichever they are. */
  function Execute<S, V, P, R>(e: Engine<S, V, P, R>, x: Session<S, P>, text: string, evicted: set<string>): Executed<S, P, R> {
    var sql := e.preprocess(text);
    if sql in x.cache then RunPlan(e, x, x.cache[sql])
    else
      var planned := e.plan(e.view(x.state), sql);
      if planned.None? then Executed(x, None)
      else
        var p := planned.value;
        RunPlan(e, if IsCacheable(e.form(p)) then x.(cache := (x.cache - evicted)[sql := p]) else x, p)
  }

  function RunPlan<S, V, P, R>(e: Engine<S, V, P, R>, x: Session<S, P>, p: P): Executed<S, P, R> {
    var (state, result) := e.run(x.state, p);
    Executed(Session(state, if result.Some? && InvalidatesCache(e.form(p)) then map[] else x.cache), result)
  }

  /** The same call without a cache. */
  function ExecuteUncached<S, V, P, R>(e: Engine<S, V, P, R>, state: S, text: string): (S, Option<R>) {
    var planned := e.plan(e.view(state), e.preprocess(text));
    if planned.None? then (state, None) else e.run(state, planned.value)
  }

  datatype Request = Request(text: string, evicted: set<string>)

  /** A run of calls, and the results in order. */
  function ExecuteAll<S, V, P, R>(e: Engine<S, V, P, R>, x: Session<S, P>, calls: seq<Request>): (Session<S, P>, seq<Option<R>>)
    decreases |calls|
  {
    if calls == [] then (x, [])
    else
      var first := Execute(e, x, calls[0].text, calls[0].evicted);
      var rest := ExecuteAll(e, first.session, calls[1..]);
      (rest.0, [first.result] + rest.1)
  }

  function ExecuteAllUncached<S, V, P, R>(e: Engine<S, V, P, R>, state: S, calls: seq<Request>): (S, seq<Option<R>>)
    decreases |calls|
  {
    if calls == [] then (state, [])
    else
      var first := ExecuteUncached(e, state, calls[0].text);
      var rest := ExecuteAllUncached(e, first.0, calls[1..]);
      (rest.0, [first.1] + rest.1)
  }

  // ---------- One call in parts ----------

  /** The plan a call runs: the cached one, or what planning gives. */
  function Ran<S, V, P, R>(e: Engine<S, V, P, R>, x: Session<S, P>, text: string): Option<P> {
    var sql := e.preprocess(text);
    if sql in x.cache then Some(x.cache[sql]) else e.plan(e.view(x.state), sql)
  }

  /** The cache while that plan runs. */
  function Kept<S, V, P, R>(e: Engine<S, V, P, R>, x: Session<S, P>, text: string, evicted: set<string>): map<string, P> {
    var sql := e.preprocess(text);
    var p := Ran(e, x, text);
    if sql !in x.cache && p.Some? && IsCacheable(e.form(p.value)) then (x.cache - evicted)[sql := p.value] else x.cache
  }

  /** The plan is of a listed form, and succeeds. */
  predicate Clears<S, V, P, R>(e: Engine<S, V, P, R>, state: S, p: Option<P>) {
    p.Some? && InvalidatesCache(e.form(p.value)) && e.run(state, p.value).1.Some?
  }

  function StateAfter<S, V, P, R>(e: Engine<S, V, P, R>, state: S, p: Option<P>): S {
    if p.None? then state else e.run(state, p.value).0
  }

  lemma ExecuteParts<S, V, P, R>(e: Engine<S, V, P, R>, x: Session<S, P>, text: string, evicted: set<string>)
    ensures var p := Ran(e, x, text);
            Execute(e, x, text, evicted)
            == Executed(Session(StateAfter(e, x.state, p), if Clears(e, x.state, p) then map[] else Kept(e, x, text, evicted)),
                        if p.None? then None else e.run(x.state, p.value).1)
  {
    hide IsCacheable, InvalidatesCache;
  }

  /** The statements that define, change or drop tables, views, schemas, functions, procedures and snapshots, and TRUNCATE. */
  const DEFINING: set<PlanForm> := {
    CreateTable, DropTable, AlterTable, Truncate, CreateView, DropView, CreateSchema, DropSchema, UndropSchema, AlterSchema,
    CreateFunction, DropFunction, CreateProcedure, DropProcedure, CreateSnapshot, DropSnapshot
  }

  /** The forms of queries. */
  const QUERIES: set<PlanForm> := {
    TableScan, Sample, Filter, Project, NestedLoopJoin, CrossJoin, HashJoin, HashAggregate, Sort, Limit, TopN, Distinct,
    Union, Intersect, Except, Window, Unnest, Qualify, WithCte, Values, Empty
  }

  /** A call ends with an empty cache when a defining statement succeeds; after any other its plan is kept if it is a query's, and no plan is dropped but to make room. */
  lemma CacheAfter<S, V, P, R>(e: Engine<S, V, P, R>, x: Session<S, P>, text: string, evicted: set<string>, p: P)
    requires Ran(e, x, text) == Some(p)
    ensures var (sql, cache, ran) := (e.preprocess(text), Execute(e, x, text, evicted).session.cache, e.run(x.state, p));
            if e.form(p) in DEFINING && ran.1.Some? then cache == map[]
            else if sql in x.cache || e.form(p) !in QUERIES then cache == x.cache
            else cache == (x.cache - evicted)[sql := p]
  {
    ExecuteParts(e, x, text, evicted);
    hide Execute;
  }

  // ---------- Coherence ----------

  ghost predicate IsText<S, V, P, R>(e: Engine<S, V, P, R>, sql: string) {
    exists text :: e.preprocess(text) == sql
  }

  /** A cached plan is what planning its text in this state would give, and is of a cacheable form. */
  ghost predicate Fresh<S, V, P, R>(e: Engine<S, V, P, R>, state: S, sql: string, p: P) {
    IsText(e, sql) && e.plan(e.view(state), sql) == Some(p) && IsCacheable(e.form(p))
  }

  ghost predicate Coherent<S, V, P, R>(e: Engine<S, V, P, R>, x: Session<S, P>) {
    forall sql | sql in x.cache :: Fresh(e, x.state, sql, x.cache[sql])
  }

  /** No form is both kept and a reason to forget what is kept. */
  lemma CacheableNeverInvalidates(f: PlanForm)
    ensures !(IsCacheable(f) && InvalidatesCache(f))
  {
  }

  lemma KeptIsFresh<S, V, P, R>(e: Engine<S, V, P, R>, x: Session<S, P>, text: string, evicted: set<string>)
    requires Coherent(e, x)
    ensures forall sql | sql in Kept(e, x, text, evicted) :: Fresh(e, x.state, sql, Kept(e, x, text, evicted)[sql])
  {
    hide IsCacheable, InvalidatesCache;
    assert IsText(e, e.preprocess(text));
  }

  /** Running a plan leaves every kept query planned as before, or empties the cache. */
  ghost predicate StepKeeps<S, V, P, R>(e: Engine<S, V, P, R>, x: Session<S, P>, call: Request) {
    var p := Ran(e, x, call.text);
    || Clears(e, x.state, p)
    || forall sql | sql in Kept(e, x, call.text, call.evicted) ::
         e.plan(e.view(StateAfter(e, x.state, p)), sql) == e.plan(e.view(x.state), sql)
  }

  /** A call keeps the cache coherent exactly when it empties it or changes the planning of no kept query. */
  lemma StepCoherentIff<S, V, P, R>(e: Engine<S, V, P, R>, x: Session<S, P>, call: Request)
    requires Coherent(e, x)
    ensures Coherent(e, Execute(e, x, call.text, call.evicted).session) <==> StepKeeps(e, x, call)
  {
    hide IsCacheable, InvalidatesCache, Execute, Ran, Clears, Kept, StateAfter;
    ExecuteParts(e, x, call.text, call.evicted);
    KeptIsFresh(e, x, call.text, call.evicted);
    var after := Execute(e, x, call.text, call.evicted).session;
    var kept := Kept(e, x, call.text, call.evicted);
    if !Clears(e, x.state, Ran(e, x, call.text)) {
      forall sql | sql in kept
        ensures Fresh(e, after.state, sql, kept[sql]) <==> e.plan(e.view(after.state), sql) == e.plan(e.view(x.state), sql)
      {
        assert Fresh(e, x.state, sql, kept[sql]);
      }
    }
  }

  /** The session after the first k calls. */
  function After<S, V, P, R>(e: Engine<S, V, P, R>, x: Session<S, P>, calls: seq<Request>, k: nat): Session<S, P>
    requires k <= |calls|
  {
    ExecuteAll(e, x, calls[..k]).0
  }

  lemma {:induction false} AfterNext<S, V, P, R>(e: Engine<S, V, P, R>, x: Session<S, P>, calls: seq<Request>, k: nat)
    requires k < |calls|
    ensures After(e, x, calls, k + 1) == Execute(e, After(e, x, calls, k), calls[k].text, calls[k].evicted).session
    decreases k
  {
    hide Execute;
    if k == 0 {
      assert calls[..1] == [calls[0]] && calls[..0] == [];
      assert calls[..1][1..] == [];
      var first := Execute(e, x, calls[0].text, calls[0].evicted).session;
      assert ExecuteAll(e, first, []).0 == first;
    } else {
      var first := Execute(e, x, calls[0].text, calls[0].evicted).session;
      AfterNext(e, first, calls[1..], k - 1);
      assert calls[..k + 1][1..] == calls[1..][..k] && calls[..k][1..] == calls[1..][..k - 1];
    }
  }

  /** Over a whole run: the cache is coherent after every call exactly when every call of the run keeps the planning of the kept queries. */
  lemma {:induction false} RunCoherentIff<S, V, P, R>(e: Engine<S, V, P, R>, x: Session<S, P>, calls: seq<Request>)
    requires Coherent(e, x)
    ensures (forall k | 0 <= k <= |calls| :: Coherent(e, After(e, x, calls, k)))
            <==> forall k | 0 <= k < |calls| :: StepKeeps(e, After(e, x, calls, k), calls[k])
  {
    hide Coherent, StepKeeps, Execute;
    assert calls[..0] == [] && After(e, x, calls, 0) == x;
    if forall k | 0 <= k < |calls| :: StepKeeps(e, After(e, x, calls, k), calls[k]) {
      for k := 0 to |calls|
        invariant forall i | 0 <= i <= k :: Coherent(e, After(e, x, calls, i))
      {
        StepCoherentIff(e, After(e, x, calls, k), calls[k]);
        AfterNext(e, x, calls, k);
      }
    }
    if forall k | 0 <= k <= |calls| :: Coherent(e, After(e, x, calls, k)) {
      forall k | 0 <= k < |calls|
        ensures StepKeeps(e, After(e, x, calls, k), calls[k])
      {
        StepCoherentIff(e, After(e, x, calls, k), calls[k]);
        AfterNext(e, x, calls, k);
        assert Coherent(e, After(e, x, calls, k + 1));
      }
    }
  }

  /** After a text is planned and run, a query that could be cached is planned as before, unless that emptied the cache. */
  ghost predicate KeepsPlan<S, V, P, R>(e: Engine<S, V, P, R>, s: S, query: string, text: string) {
    var q := e.plan(e.view(s), e.preprocess(query));
    var p := e.plan(e.view(s), e.preprocess(text));
    q.Some? && IsCacheable(e.form(q.value)) ==>
      Clears(e, s, p) || e.plan(e.view(StateAfter(e, s, p)), e.preprocess(query)) == q
  }

  ghost predicate KeepsPlans<S(!new), V, P, R>(e: Engine<S, V, P, R>) {
    forall s, query, text :: KeepsPlan(e, s, query, text)
  }

  /** From every coherent session, every sequential run ends in one. */
  ghost predicate AlwaysCoherent<S(!new), V, P(!new), R>(e: Engine<S, V, P, R>) {
    forall x: Session<S, P>, calls: seq<Request> | Coherent(e, x) :: Coherent(e, ExecuteAll(e, x, calls).0)
  }

  lemma KeptPlans<S(!new), V, P, R>(e: Engine<S, V, P, R>, x: Session<S, P>, call: Request)
    requires KeepsPlans(e) && Coherent(e, x)
    ensures StepKeeps(e, x, call)
  {
    hide IsCacheable, InvalidatesCache, Clears, Kept, StateAfter;
    var p := Ran(e, x, call.text);
    var sql := e.preprocess(call.text);
    assert p == e.plan(e.view(x.state), sql) by {
      if sql in x.cache {
        assert Fresh(e, x.state, sql, x.cache[sql]);
      }
    }
    KeptIsFresh(e, x, call.text, call.evicted);
    hide Ran;
    if !Clears(e, x.state, p) {
      forall s | s in Kept(e, x, call.text, call.evicted)
        ensures e.plan(e.view(StateAfter(e, x.state, p)), s) == e.plan(e.view(x.state), s)
      {
        assert Fresh(e, x.state, s, Kept(e, x, call.text, call.evicted)[s]);
        var query :| e.preprocess(query) == s;
        assert KeepsPlan(e, x.state, query, call.text);
      }
    }
  }

  /** The caches of all runs stay coherent exactly when every statement either empties the cache or leaves planning as it is. */
  lemma CoherenceIff<S(!new), V, P(!new), R>(e: Engine<S, V, P, R>)
    ensures AlwaysCoherent(e) <==> KeepsPlans(e)
  {
    hide Coherent, Execute, ExecuteAll, KeepsPlan;
    if KeepsPlans(e) {
      forall x: Session<S, P>, calls: seq<Request> | Coherent(e, x)
        ensures Coherent(e, ExecuteAll(e, x, calls).0)
      {
        RunRefines(e, x, calls);
      }
    }
    if AlwaysCoherent(e) {
      forall s, query, text
        ensures KeepsPlan(e, s, query, text)
      {
        CoherentKeeps(e, s, query, text);
      }
    }
  }

  /** A query alone in the cache, and one call. */
  lemma CoherentKeeps<S(!new), V, P(!new), R>(e: Engine<S, V, P, R>, s: S, query: string, text: string)
    requires AlwaysCoherent(e)
    ensures KeepsPlan(e, s, query, text)
  {
    hide IsCacheable, InvalidatesCache, Execute;
    var sql := e.preprocess(query);
    var q := e.plan(e.view(s), sql);
    if q.Some? && IsCacheable(e.form(q.value)) {
      var x := Session(s, map[sql := q.value]);
      var call := Request(text, {});
      assert IsText(e, sql);
      assert Coherent(e, x);
      assert [call][1..] == [];
      var after := Execute(e, x, text, {}).session;
      assert ExecuteAll(e, x, [call]).0 == after;
      assert Coherent(e, after);
      StepCoherentIff(e, x, call);
      assert sql in Kept(e, x, text, {});
      assert Ran(e, x, text) == e.plan(e.view(s), e.preprocess(text));
    }
  }

  /** It is so when what planning sees changes only through successful statements of a listed form. */
  lemma DisciplinedKeeps<S(!new), V, P(!new), R>(e: Engine<S, V, P, R>)
    requires Disciplined(e)
    ensures KeepsPlans(e)
  {
    hide IsCacheable, InvalidatesCache;
    forall s, query, text
      ensures KeepsPlan(e, s, query, text)
    {
      var p := e.plan(e.view(s), e.preprocess(text));
      if p.Some? {
        assert DisciplinedAt(e, s, p.value);
      }
    }
  }

  /** One call keeps the cache coherent, and does what it would do without a cache: a hit and a miss run the same plan. */
  lemma ExecuteRefines<S(!new), V, P(!new), R>(e: Engine<S, V, P, R>, x: Session<S, P>, text: string, evicted: set<string>)
    requires KeepsPlans(e) && Coherent(e, x)
    ensures var r := Execute(e, x, text, evicted);
            && Coherent(e, r.session)
            && (r.session.state, r.result) == ExecuteUncached(e, x.state, text)
  {
    hide IsCacheable, InvalidatesCache, KeepsPlans, Clears, Kept, Execute;
    KeptPlans(e, x, Request(text, evicted));
    StepCoherentIff(e, x, Request(text, evicted));
    ExecuteParts(e, x, text, evicted);
    var sql := e.preprocess(text);
    if sql in x.cache {
      assert Fresh(e, x.state, sql, x.cache[sql]);
    }
  }

  /** Over every sequential run the cache stays coherent, and states and results are those of a run without a cache. */
  lemma {:induction false} RunRefines<S(!new), V, P(!new), R>(e: Engine<S, V, P, R>, x: Session<S, P>, calls: seq<Request>)
    requires KeepsPlans(e) && Coherent(e, x)
    ensures var r := ExecuteAll(e, x, calls);
            && Coherent(e, r.0)
            && (r.0.state, r.1) == ExecuteAllUncached(e, x.state, calls)
    decreases |calls|
  {
    hide Execute, ExecuteUncached, KeepsPlans, Coherent;
    if calls != [] {
      ExecuteRefines(e, x, calls[0].text, calls[0].evicted);
      RunRefines(e, Execute(e, x, calls[0].text, calls[0].evicted).session, calls[1..]);
    }
  }

  // ---------- A query, then a change ----------

  /**
   A query is run and cached, then any other statement: no stale plan is left for the query exactly
   when the statement is of a listed form and succeeds, or planning the query gives what it gave.
   */
  lemma TwoCallsIff<S, V, P, R>(e: Engine<S, V, P, R>, s: S, query: string, change: string)
    requires e.preprocess(query) != e.preprocess(change)
    requires var q := e.plan(e.view(s), e.preprocess(query)); q.Some? && IsCacheable(e.form(q.value))
    ensures var sql := e.preprocess(query);
            var q := e.plan(e.view(s), sql);
            var s1 := e.run(s, q.value).0;
            var c := e.plan(e.view(s1), e.preprocess(change));
            var after := ExecuteAll(e, Session(s, map[]), [Request(query, {}), Request(change, {})]).0;
            && after.state == StateAfter(e, s1, c)
            && ((sql in after.cache ==> e.plan(e.view(after.state), sql) == Some(after.cache[sql]))
                <==> Clears(e, s1, c) || e.plan(e.view(after.state), sql) == q)
  {
    hide IsCacheable, InvalidatesCache, Execute;
    var sql := e.preprocess(query);
    var q := e.plan(e.view(s), sql).value;
    var calls := [Request(query, {}), Request(change, {})];
    CacheableNeverInvalidates(e.form(q));
    ExecuteParts(e, Session(s, map[]), query, {});
    var first := Execute(e, Session(s, map[]), query, {}).session;
    assert first.cache == map[sql := q];
    ExecuteParts(e, first, change, {});
    assert calls[1..] == [calls[1]] && calls[1..][1..] == [];
    assert ExecuteAll(e, first, calls[1..]).0 == Execute(e, first, change, {}).session;
  }

  /**
   Planning a query before and after a statement of an unlisted form, such as SET, CALL, EXECUTE IMMEDIATE, a
   block, or an ALTER TABLE of several operations wrapped in IF.
   */
  ghost predicate ChangesUnlisted<S, V, P, R>(e: Engine<S, V, P, R>, s: S, query: string, change: string) {
    var q := e.plan(e.view(s), e.preprocess(query));
    && e.preprocess(query) != e.preprocess(change)
    && q.Some? && IsCacheable(e.form(q.value))
    && var s1 := e.run(s, q.value).0;
    var c := e.plan(e.view(s1), e.preprocess(change));
    && c.Some? && !InvalidatesCache(e.form(c.value))
    && e.plan(e.view(e.run(s1, c.value).0), e.preprocess(query)) != q
  }

  /** Running the query, then such a change, leaves a cached plan that planning would no longer give. */
  lemma UnlistedChangeStale<S, V, P, R>(e: Engine<S, V, P, R>, s: S, query: string, change: string)
    requires ChangesUnlisted(e, s, query, change)
    ensures var after := ExecuteAll(e, Session(s, map[]), [Request(query, {}), Request(change, {})]).0;
            && e.preprocess(query) in after.cache
            && e.plan(e.view(after.state), e.preprocess(query)) != Some(after.cache[e.preprocess(query)])
  {
    hide IsCacheable, InvalidatesCache, ExecuteAll;
    TwoCallsIff(e, s, query, change);
  }

  // ---------- SET SEARCH_PATH ----------

  /** A query over one table, planned with the columns the table has where the search path finds it; or a new path. */
  datatype PathPlan = Select(columns: string) | SetPath(schema: string)

  /**
   An engine of two texts.  `SELECT` is planned with the columns of the table the search path leads to, and
   answers with them; any other text sets the path, which is a plan of form `SetVariable`.
   */
  function PathEngine(columnsIn: string -> string, setTo: string): Engine<string, string, PathPlan, string> {
    Engine((s: string) => s,
           (text: string) => text,
           (path: string, sql: string) => Some(if sql == "SELECT" then Select(columnsIn(path)) else SetPath(setTo)),
           (p: PathPlan) => if p.Select? then TableScan else SetVariable,
           (s: string, p: PathPlan) => if p.Select? then (s, Some(p.columns)) else (p.schema, Some("")))
  }

  /**
   `SELECT`, `SET`, `SELECT`: where the table the second path leads to has other columns, the last answer still
   has the columns of the first table, and without the cache it has those of the second.
   */
  lemma SetPathStale(columnsIn: string -> string, first: string, second: string)
    requires columnsIn(first) != columnsIn(second)
    ensures var e := PathEngine(columnsIn, second);
            var calls := [Request("SELECT", {}), Request("SET", {}), Request("SELECT", {})];
            && ChangesUnlisted(e, first, "SELECT", "SET")
            && ExecuteAll(e, Session(first, map[]), calls).1 == [Some(columnsIn(first)), Some(""), Some(columnsIn(first))]
            && ExecuteAllUncached(e, first, calls).1 == [Some(columnsIn(first)), Some(""), Some(columnsIn(second))]
  {
    var e := PathEngine(columnsIn, second);
    PathSteps(columnsIn, first, second);
    hide *;
    ThreeCalls(e, Session(first, map[]), Request("SELECT", {}), Request("SET", {}), Request("SELECT", {}));
    ThreeUncached(e, first, Request("SELECT", {}), Request("SET", {}), Request("SELECT", {}));
  }

  lemma PathSteps(columnsIn: string -> string, first: string, second: string)
    requires columnsIn(first) != columnsIn(second)
    ensures var e := PathEngine(columnsIn, second);
            var cached := map["SELECT" := Select(columnsIn(first))];
            && ChangesUnlisted(e, first, "SELECT", "SET")
            && Execute(e, Session(first, map[]), "SELECT", {}) == Executed(Session(first, cached), Some(columnsIn(first)))
            && Execute(e, Session(first, cached), "SET", {}) == Executed(Session(second, cached), Some(""))
            && Execute(e, Session(second, cached), "SELECT", {}) == Executed(Session(second, cached), Some(columnsIn(first)))
            && ExecuteUncached(e, first, "SELECT") == (first, Some(columnsIn(first)))
            && ExecuteUncached(e, first, "SET") == (second, Some(""))
            && ExecuteUncached(e, second, "SELECT") == (second, Some(columnsIn(second)))
  {
    assert |"SELECT"| != |"SET"|;
  }

  lemma ThreeCalls<S, V, P, R>(e: Engine<S, V, P, R>, x: Session<S, P>, a: Request, b: Request, c: Request)
    ensures var first := Execute(e, x, a.text, a.evicted);
            var second := Execute(e, first.session, b.text, b.evicted);
            var third := Execute(e, second.session, c.text, c.evicted);
            ExecuteAll(e, x, [a, b, c]) == (third.session, [first.result, second.result, third.result])
  {
    hide Execute;
    var first := Execute(e, x, a.text, a.evicted);
    var second := Execute(e, first.session, b.text, b.evicted);
    CallThen(e, x, a, [b, c]);
    CallThen(e, first.session, b, [c]);
    CallThen(e, second.session, c, []);
    assert [a] + [b, c] == [a, b, c] && [b] + [c] == [b, c] && [c] + [] == [c];
    var third := Execute(e, second.session, c.text, c.evicted);
    assert ExecuteAll(e, third.session, []) == (third.session, []);
    assert [first.result] + ([second.result] + ([third.result] + [])) == [first.result, second.result, third.result];
  }

  lemma CallThen<S, V, P, R>(e: Engine<S, V, P, R>, x: Session<S, P>, call: Request, rest: seq<Request>)
    ensures var first := Execute(e, x, call.text, call.evicted);
            var later := ExecuteAll(e, first.session, rest);
            ExecuteAll(e, x, [call] + rest) == (later.0, [first.result] + later.1)
  {
    hide Execute;
    assert ([call] + rest)[1..] == rest;
  }

  lemma ThreeUncached<S, V, P, R>(e: Engine<S, V, P, R>, s: S, a: Request, b: Request, c: Request)
    ensures var first := ExecuteUncached(e, s, a.text);
            var second := ExecuteUncached(e, first.0, b.text);
            var third := ExecuteUncached(e, second.0, c.text);
            ExecuteAllUncached(e, s, [a, b, c]) == (third.0, [first.1, second.1, third.1])
  {
    hide ExecuteUncached;
    var first := ExecuteUncached(e, s, a.text);
    var second := ExecuteUncached(e, first.0, b.text);
    UncachedThen(e, s, a, [b, c]);
    UncachedThen(e, first.0, b, [c]);
    UncachedThen(e, second.0, c, []);
    assert [a] + [b, c] == [a, b, c] && [b] + [c] == [b, c] && [c] + [] == [c];
    var third := ExecuteUncached(e, second.0, c.text);
    assert ExecuteAllUncached(e, third.0, []) == (third.0, []);
    assert [first.1] + ([second.1] + ([third.1] + [])) == [first.1, second.1, third.1];
  }

  lemma UncachedThen<S, V, P, R>(e: Engine<S, V, P, R>, s: S, call: Request, rest: seq<Request>)
    ensures var first := ExecuteUncached(e, s, call.text);
            var later := ExecuteAllUncached(e, first.0, rest);
            ExecuteAllUncached(e, s, [call] + rest) == (later.0, [first.1] + later.1)
  {
    hide ExecuteUncached;
    assert ([call] + rest)[1..] == rest;
  }

  // ---------- The executor object ----------

  class AsyncQueryExecutor<!S, !V, !P, !R> {
    const engine: Engine<S, V, P, R>
    var state: S
    var planCache: map<string, P>

    constructor (e: Engine<S, V, P, R>, initial: S)
      ensures engine == e && Current() == Session(initial, map[])
    {
      engine, state, planCache := e, initial, map[];
    }

    function Current(): Session<S, P>
      reads this
    {
      Session(state, planCache)
    }

    method ExecuteSql(text: string, evicted: set<string>) returns (result: Option<R>)
      modifies this
      ensures Executed(Current(), result) == Execute(engine, old(Current()), text, evicted)
    {
      var sql := engine.preprocess(text);
      var physical: P;
      if sql in planCache {
        physical := planCache[sql];
      } else {
        var planned := engine.plan(engine.view(state), sql);
        if planned.None? {
          return None;
        }
        physical := planned.value;
        if IsCacheable(engine.form(physical)) {
          planCache := (planCache - evicted)[sql := physical];
        }
      }
      var outcome := engine.run(state, physical);
      state := outcome.0;
      result := outcome.1;
      if result.Some? && InvalidatesCache(engine.form(physical)) {
        planCache := map[];
      }
    }

    /** A batch, one statement after another. */
    method ExecuteBatch(calls: seq<Request>) returns (results: seq<Option<R>>)
      modifies this
      ensures (Current(), results) == ExecuteAll(engine, old(Current()), calls)
    {
      hide Execute;
      results := [];
      ghost var whole := ExecuteAll(engine, Current(), calls);
      assert calls[0..] == calls;
      for i := 0 to |calls|
        invariant whole.0 == ExecuteAll(engine, Current(), calls[i..]).0
        invariant whole.1 == results + ExecuteAll(engine, Current(), calls[i..]).1
      {
        assert calls[i..][0] == calls[i] && calls[i..][1..] == calls[i + 1..];
        var r := ExecuteSql(calls[i].text, calls[i].evicted);
        ghost var rest := ExecuteAll(engine, Current(), calls[i + 1..]).1;
        assert results + ([r] + rest) == (results + [r]) + rest;
        results := results + [r];
      }
      assert calls[|calls|..] == [] && whole.1 == results + [];
      assert results + [] == results;
    }
  }
}

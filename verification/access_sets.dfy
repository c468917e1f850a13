/**
 Access sets of `crates/executor/src/plan.rs`: which tables a plan reads and writes, collected before
 it runs so that they can be copied; and what the concurrent executor then looks up while it runs.
 A CTE's result stays visible, under its name, until the statement ends.
 */
module AccessSets {
  import opened Wrappers
  import opened Names
  import opened TableProtocol
  import opened CatalogState

  /** A CTE with its query planned; `None` where planning it fails, which the collector passes over. */
  datatype Cte = Cte(name: string, query: Option<PlanTree>)

  /** `Endless` is a LOOP, `Saved` a body that is stored and not run (CREATE VIEW, CREATE PROCEDURE). */
  datatype ListKind = While | Repeat | Endless | Block | Saved

  /**
   Physical plans; forms that are collected and run alike share a constructor, and an absent ELSE is
   an empty one.  `Inputs` is a join, a set operation or a union, its inputs run one after another or
   `parallel`; `WriteFrom` an INSERT or MERGE, `WriteTo` any other statement that changes a table,
   `optional` where the table need not exist; `Jump` a BREAK, CONTINUE or RETURN.  What follows
   is run without being looked into before: `Hidden` is what a CALL or EXECUTE IMMEDIATE runs, or the
   input of a GAP_FILL, and `TryCatch` a block with its EXCEPTION part.
   */
  datatype PlanTree =
    | TableScan(tableName: string)
    | Unary(input: PlanTree)
    | Inputs(inputs: seq<PlanTree>, parallel: bool)
    | WithCte(ctes: seq<Cte>, body: PlanTree)
    | WriteFrom(target: string, source: PlanTree)
    | WriteTo(target: string, optional: bool)
    | CreateSnapshot(sourceName: string)
    | ForLoop(query: PlanTree, stmts: seq<PlanTree>)
    | IfElse(thenBranch: seq<PlanTree>, elseBranch: seq<PlanTree>)
    | Statements(kind: ListKind, stmts: seq<PlanTree>)
    | Hidden(ran: seq<PlanTree>)
    | TryCatch(tried: seq<PlanTree>, caught: seq<PlanTree>)
    | Jump
    | NoTables

  // ---------- Access sets ----------

  type Accesses = map<string, AccessType>

  function AddRead(a: Accesses, n: string): Accesses {
    if n in a then a else a[n := Read]
  }

  function AddWrite(a: Accesses, n: string): Accesses {
    a[n := Write]
  }

  function AddWriteOptional(a: Accesses, n: string): Accesses {
    if n in a then a else a[n := WriteOptional]
  }

  /** What has been collected, and every CTE name met so far; names never leave the set. */
  datatype Collected = Collected(accesses: Accesses, cteNames: set<string>)

  function Collect(p: PlanTree, s: Collected): Collected
    decreases p
  {
    match p
    case TableScan(n) => if Upper(n) in s.cteNames then s else s.(accesses := AddRead(s.accesses, n))
    case Unary(input) => Collect(input, s)
    case Inputs(ps, _) => CollectAll(ps, s)
    case WithCte(ctes, body) => Collect(body, CollectCtes(ctes, s))
    case WriteFrom(n, source) => Collect(source, s.(accesses := AddWrite(s.accesses, n)))
    case WriteTo(n, optional) => s.(accesses := if optional then AddWriteOptional(s.accesses, n) else AddWrite(s.accesses, n))
    case CreateSnapshot(n) => s.(accesses := AddRead(s.accesses, n))
    case ForLoop(query, stmts) => CollectAll(stmts, Collect(query, s))
    case IfElse(t, e) => CollectAll(e, CollectAll(t, s))
    case Statements(_, stmts) => CollectAll(stmts, s)
    case Hidden(_) => s
    case TryCatch(_, _) => s
    case Jump => s
    case NoTables => s
  }

  function CollectAll(ps: seq<PlanTree>, s: Collected): Collected
    decreases ps
  {
    if ps == [] then s else CollectAll(ps[1..], Collect(ps[0], s))
  }

  function CollectCtes(ctes: seq<Cte>, s: Collected): Collected
    decreases ctes
  {
    if ctes == [] then s
    else
      var named := s.(cteNames := s.cteNames + {Upper(ctes[0].name)});
      CollectCtes(ctes[1..], if ctes[0].query.Some? then Collect(ctes[0].query.value, named) else named)
  }

  function Extract(p: PlanTree): Accesses {
    Collect(p, Collected(map[], {})).accesses
  }

  // ---------- What a plan does to tables ----------

  /** The names a plan must be able to write, those of bodies it runs without looking into them aside. */
  function Targets(p: PlanTree): set<string>
    decreases p
  {
    match p
    case Unary(input) => Targets(input)
    case Inputs(ps, _) => TargetsOf(ps)
    case WithCte(ctes, body) => CteTargets(ctes) + Targets(body)
    case WriteFrom(n, source) => {n} + Targets(source)
    case WriteTo(n, optional) => if optional then {} else {n}
    case ForLoop(query, stmts) => Targets(query) + TargetsOf(stmts)
    case IfElse(t, e) => TargetsOf(t) + TargetsOf(e)
    case Statements(_, stmts) => TargetsOf(stmts)
    case _ => {}
  }

  function TargetsOf(ps: seq<PlanTree>): set<string>
    decreases ps
  {
    if ps == [] then {} else Targets(ps[0]) + TargetsOf(ps[1..])
  }

  function CteTargets(ctes: seq<Cte>): set<string>
    decreases ctes
  {
    if ctes == [] then {} else (if ctes[0].query.Some? then Targets(ctes[0].query.value) else {}) + CteTargets(ctes[1..])
  }

  // ---------- Write wins ----------

  predicate IsWrite(a: Accesses, n: string) {
    n in a && a[n].Write?
  }

  /** After collecting, exactly the targets, and what was a write before, are writes. */
  ghost predicate AddsWrites(before: Accesses, after: Accesses, targets: set<string>) {
    forall n :: IsWrite(after, n) <==> IsWrite(before, n) || n in targets
  }

  lemma {:induction false} CollectWrites(p: PlanTree, s: Collected)
    ensures AddsWrites(s.accesses, Collect(p, s).accesses, Targets(p))
    decreases p
  {
    match p
    case Unary(input) => CollectWrites(input, s);
    case Inputs(ps, _) => CollectAllWrites(ps, s);
    case WithCte(ctes, body) =>
      CollectCtesWrites(ctes, s);
      CollectWrites(body, CollectCtes(ctes, s));
    case WriteFrom(n, source) => CollectWrites(source, s.(accesses := AddWrite(s.accesses, n)));
    case ForLoop(query, stmts) =>
      CollectWrites(query, s);
      CollectAllWrites(stmts, Collect(query, s));
    case IfElse(t, e) =>
      CollectAllWrites(t, s);
      CollectAllWrites(e, CollectAll(t, s));
    case Statements(_, stmts) => CollectAllWrites(stmts, s);
    case _ =>
  }

  lemma {:induction false} CollectAllWrites(ps: seq<PlanTree>, s: Collected)
    ensures AddsWrites(s.accesses, CollectAll(ps, s).accesses, TargetsOf(ps))
    decreases ps
  {
    if ps != [] {
      CollectWrites(ps[0], s);
      CollectAllWrites(ps[1..], Collect(ps[0], s));
    }
  }

  lemma {:induction false} CollectCtesWrites(ctes: seq<Cte>, s: Collected)
    ensures AddsWrites(s.accesses, CollectCtes(ctes, s).accesses, CteTargets(ctes))
    decreases ctes
  {
    if ctes != [] {
      var named := s.(cteNames := s.cteNames + {Upper(ctes[0].name)});
      if ctes[0].query.Some? {
        CollectWrites(ctes[0].query.value, named);
      }
      CollectCtesWrites(ctes[1..], if ctes[0].query.Some? then Collect(ctes[0].query.value, named) else named);
    }
  }

  /** Write always wins: a name is recorded as written exactly when the plan has it as a target, wherever it is also read. */
  lemma WriteWins(p: PlanTree)
    ensures forall n :: IsWrite(Extract(p), n) <==> n in Targets(p)
  {
    hide Collect, Targets;
    CollectWrites(p, Collected(map[], {}));
  }

  // ---------- What is recorded, in collection order ----------

  /**
   A scan of a name, a CTE that takes a name, or a name used whatever CTEs there are: a table changed, one
   changed if it is there, or the source of a snapshot.
   */
  datatype Event = Scan(name: string) | Define(cteName: string) | Store(target: string) | TryStore(target: string) | Copy(source: string)

  predicate Touches(t: seq<Event>, n: string) {
    Store(n) in t || TryStore(n) in t || Copy(n) in t
  }

  /** Some scan of the name comes before every CTE of that name. */
  predicate ReadsStored(t: seq<Event>, n: string) {
    t != [] && (t[0] == Scan(n) || (t[0] != Define(Upper(n)) && ReadsStored(t[1..], n)))
  }

  lemma {:induction false} ReadsStoredAt(t: seq<Event>, n: string)
    ensures ReadsStored(t, n) <==> exists i :: 0 <= i < |t| && t[i] == Scan(n) && Define(Upper(n)) !in t[..i]
    decreases |t|
  {
    hide Upper;
    if t != [] {
      ReadsStoredAt(t[1..], n);
      if i :| 0 <= i < |t| && t[i] == Scan(n) && Define(Upper(n)) !in t[..i] {
        if i > 0 {
          assert t[0] in t[..i] && t[1..][i - 1] == Scan(n) && t[..i][1..] == t[1..][..i - 1];
        }
      }
      if ReadsStored(t, n) {
        if t[0] == Scan(n) {
          assert t[..0] == [];
        } else {
          var i :| 0 <= i < |t| - 1 && t[1..][i] == Scan(n) && Define(Upper(n)) !in t[1..][..i];
          assert t[i + 1] == Scan(n) && t[..i + 1] == [t[0]] + t[1..][..i];
        }
      }
    }
  }

  lemma {:induction false} ReadsConcat(a: seq<Event>, b: seq<Event>, n: string)
    ensures ReadsStored(a + b, n) <==> ReadsStored(a, n) || (Define(Upper(n)) !in a && ReadsStored(b, n))
    decreases |a|
  {
    hide Upper;
    if a == [] {
      assert a + b == b;
    } else {
      ReadsConcat(a[1..], b, n);
      assert (a + b)[1..] == a[1..] + b && a == [a[0]] + a[1..];
    }
  }

  /** The plan in the order it is collected: a CTE has its name before its query is looked into. */
  function Marks(p: PlanTree): seq<Event>
    decreases p
  {
    match p
    case TableScan(n) => [Scan(n)]
    case Unary(input) => Marks(input)
    case Inputs(ps, _) => MarksOf(ps)
    case WithCte(ctes, body) => CteMarks(ctes) + Marks(body)
    case WriteFrom(n, source) => [Store(n)] + Marks(source)
    case WriteTo(n, optional) => [if optional then TryStore(n) else Store(n)]
    case CreateSnapshot(n) => [Copy(n)]
    case ForLoop(query, stmts) => Marks(query) + MarksOf(stmts)
    case IfElse(t, e) => MarksOf(t) + MarksOf(e)
    case Statements(_, stmts) => MarksOf(stmts)
    case Hidden(_) => []
    case TryCatch(_, _) => []
    case Jump => []
    case NoTables => []
  }

  function MarksOf(ps: seq<PlanTree>): seq<Event>
    decreases ps
  {
    if ps == [] then [] else Marks(ps[0]) + MarksOf(ps[1..])
  }

  function CteMarks(ctes: seq<Cte>): seq<Event>
    decreases ctes
  {
    if ctes == [] then []
    else [Define(Upper(ctes[0].name))] + (if ctes[0].query.Some? then Marks(ctes[0].query.value) else []) + CteMarks(ctes[1..])
  }

  /** The access the first use of a name asks for; scans do not count once a CTE has taken the name. */
  function FirstUse(t: seq<Event>, n: string, taken: bool): Option<AccessType>
    decreases |t|
  {
    if t == [] then None
    else match t[0]
      case Scan(m) => if m == n && !taken then Some(Read) else FirstUse(t[1..], n, taken)
      case Define(m) => FirstUse(t[1..], n, taken || m == Upper(n))
      case Store(m) => if m == n then Some(Write) else FirstUse(t[1..], n, taken)
      case TryStore(m) => if m == n then Some(WriteOptional) else FirstUse(t[1..], n, taken)
      case Copy(m) => if m == n then Some(Read) else FirstUse(t[1..], n, taken)
  }

  lemma {:induction false} FirstUseConcat(a: seq<Event>, b: seq<Event>, n: string, taken: bool)
    ensures FirstUse(a + b, n, taken)
            == if FirstUse(a, n, taken).Some? then FirstUse(a, n, taken) else FirstUse(b, n, taken || Define(Upper(n)) in a)
    decreases |a|
  {
    hide Upper;
    if a == [] {
      assert a + b == b;
    } else {
      FirstUseConcat(a[1..], b, n, taken || a[0] == Define(Upper(n)));
      assert (a + b)[1..] == a[1..] + b && a == [a[0]] + a[1..];
    }
  }

  lemma {:induction false} FirstUseSome(t: seq<Event>, n: string, taken: bool)
    ensures FirstUse(t, n, taken).Some? <==> Touches(t, n) || (!taken && ReadsStored(t, n))
    decreases |t|
  {
    hide Upper;
    if t != [] {
      FirstUseSome(t[1..], n, taken || t[0] == Define(Upper(n)));
      assert t == [t[0]] + t[1..];
    }
  }

  function Entry(a: Accesses, n: string): Option<AccessType> {
    if n in a then Some(a[n]) else None
  }

  /** Collecting records a name written anywhere as written, keeps what was recorded of others, records the first use of the rest, and notes the CTEs' names. */
  ghost predicate Tracks(s: Collected, t: Collected, marks: seq<Event>) {
    && (forall n :: Entry(t.accesses, n) == if Store(n) in marks then Some(Write)
                                            else if n in s.accesses then Some(s.accesses[n])
                                            else FirstUse(marks, n, Upper(n) in s.cteNames))
    && (forall n :: n in t.cteNames <==> n in s.cteNames || Define(n) in marks)
  }

  lemma TracksConcat(s: Collected, t: Collected, u: Collected, a: seq<Event>, b: seq<Event>)
    requires Tracks(s, t, a) && Tracks(t, u, b)
    ensures Tracks(s, u, a + b)
  {
    hide Upper, FirstUse;
    forall n
      ensures Entry(u.accesses, n) == if Store(n) in a + b then Some(Write)
                                      else if n in s.accesses then Some(s.accesses[n])
                                      else FirstUse(a + b, n, Upper(n) in s.cteNames)
    {
      FirstUseConcat(a, b, n, Upper(n) in s.cteNames);
    }
  }

  lemma TracksNothing(s: Collected)
    ensures Tracks(s, s, [])
  {
  }

  lemma OneUse(e: Event, n: string, taken: bool)
    ensures FirstUse([e], n, taken)
            == match e
               case Scan(m) => if m == n && !taken then Some(Read) else None
               case Define(_) => None
               case Store(m) => if m == n then Some(Write) else None
               case TryStore(m) => if m == n then Some(WriteOptional) else None
               case Copy(m) => if m == n then Some(Read) else None
  {
    hide Upper;
    assert [e][1..] == [];
  }

  /** One use of a name. */
  lemma UseTracks(s: Collected, t: Collected, n: string, e: Event)
    requires e in {Store(n), TryStore(n), Copy(n)} && t.cteNames == s.cteNames
    requires t.accesses == if e.Store? then AddWrite(s.accesses, n) else if e.Copy? then AddRead(s.accesses, n) else AddWriteOptional(s.accesses, n)
    ensures Tracks(s, t, [e])
  {
    hide Upper, FirstUse;
    forall m
      ensures Entry(t.accesses, m) == if Store(m) in [e] then Some(Write)
                                      else if m in s.accesses then Some(s.accesses[m])
                                      else FirstUse([e], m, Upper(m) in s.cteNames)
    {
      OneUse(e, m, Upper(m) in s.cteNames);
    }
  }

  lemma ScanTracks(s: Collected, n: string)
    ensures Tracks(s, Collect(TableScan(n), s), [Scan(n)])
  {
    hide Upper, FirstUse;
    var t := Collect(TableScan(n), s);
    forall m
      ensures Entry(t.accesses, m) == if m in s.accesses then Some(s.accesses[m]) else FirstUse([Scan(n)], m, Upper(m) in s.cteNames)
    {
      OneUse(Scan(n), m, Upper(m) in s.cteNames);
    }
  }

  lemma DefineTracks(s: Collected, n: string)
    ensures Tracks(s, s.(cteNames := s.cteNames + {n}), [Define(n)])
  {
    hide Upper, FirstUse;
    forall m
      ensures FirstUse([Define(n)], m, Upper(m) in s.cteNames) == None
    {
      OneUse(Define(n), m, Upper(m) in s.cteNames);
    }
  }

  lemma DefineReads(d: string, rest: seq<Event>, n: string)
    ensures ReadsStored([Define(d)] + rest, n) ==> d != Upper(n) && ReadsStored(rest, n)
  {
    hide Upper;
    assert ([Define(d)] + rest)[1..] == rest;
  }

  lemma {:induction false} CollectTracks(p: PlanTree, s: Collected)
    ensures Tracks(s, Collect(p, s), Marks(p))
    decreases p
  {
    hide Upper, Tracks;
    TracksNothing(s);
    match p
    case TableScan(n) => ScanTracks(s, n);
    case Unary(input) => CollectTracks(input, s);
    case Inputs(ps, _) => CollectAllTracks(ps, s);
    case WithCte(ctes, body) =>
      CollectCtesTracks(ctes, s);
      CollectTracks(body, CollectCtes(ctes, s));
      TracksConcat(s, CollectCtes(ctes, s), Collect(p, s), CteMarks(ctes), Marks(body));
    case WriteFrom(n, source) => WriteTracks(p, n, source, s);
    case WriteTo(n, optional) => UseTracks(s, Collect(p, s), n, if optional then TryStore(n) else Store(n));
    case CreateSnapshot(n) => UseTracks(s, Collect(p, s), n, Copy(n));
    case ForLoop(query, stmts) =>
      CollectTracks(query, s);
      CollectAllTracks(stmts, Collect(query, s));
      TracksConcat(s, Collect(query, s), Collect(p, s), Marks(query), MarksOf(stmts));
    case IfElse(t, e) =>
      CollectAllTracks(t, s);
      CollectAllTracks(e, CollectAll(t, s));
      TracksConcat(s, CollectAll(t, s), Collect(p, s), MarksOf(t), MarksOf(e));
    case Statements(_, stmts) => CollectAllTracks(stmts, s);
    case _ =>
  }

  lemma {:induction false} WriteTracks(p: PlanTree, n: string, source: PlanTree, s: Collected)
    requires p == WriteFrom(n, source)
    ensures Tracks(s, Collect(p, s), Marks(p))
    decreases p, 0
  {
    hide Upper, Tracks;
    var t := s.(accesses := AddWrite(s.accesses, n));
    UseTracks(s, t, n, Store(n));
    CollectTracks(source, t);
    TracksConcat(s, t, Collect(p, s), [Store(n)], Marks(source));
  }

  lemma {:induction false} CollectAllTracks(ps: seq<PlanTree>, s: Collected)
    ensures Tracks(s, CollectAll(ps, s), MarksOf(ps))
    decreases ps
  {
    hide Upper, Tracks;
    if ps == [] {
      TracksNothing(s);
    } else {
      CollectTracks(ps[0], s);
      CollectAllTracks(ps[1..], Collect(ps[0], s));
      TracksConcat(s, Collect(ps[0], s), CollectAll(ps, s), Marks(ps[0]), MarksOf(ps[1..]));
    }
  }

  lemma {:induction false} CollectCtesTracks(ctes: seq<Cte>, s: Collected)
    ensures Tracks(s, CollectCtes(ctes, s), CteMarks(ctes))
    decreases ctes
  {
    hide Upper, Tracks;
    TracksNothing(s);
    if ctes != [] {
      var named := s.(cteNames := s.cteNames + {Upper(ctes[0].name)});
      DefineTracks(s, Upper(ctes[0].name));
      TracksNothing(named);
      var next, inner := named, [];
      if ctes[0].query.Some? {
        CollectTracks(ctes[0].query.value, named);
        next, inner := Collect(ctes[0].query.value, named), Marks(ctes[0].query.value);
      }
      var head := [Define(Upper(ctes[0].name))];
      TracksConcat(s, named, next, head, inner);
      CollectCtesTracks(ctes[1..], next);
      TracksConcat(s, next, CollectCtes(ctes, s), head + inner, CteMarks(ctes[1..]));
    }
  }

  /** A name is recorded exactly when it is a target or a snapshot's source, or some scan of it is collected before every CTE of its name. */
  lemma RecordedIff(p: PlanTree, n: string)
    ensures n in Extract(p) <==> Touches(Marks(p), n) || ReadsStored(Marks(p), n)
  {
    hide Upper, Collect, Marks, FirstUse, ReadsStored, Touches;
    CollectTracks(p, Collected(map[], {}));
    FirstUseSome(Marks(p), n, false);
    assert n in Extract(p) <==> Entry(Extract(p), n).Some?;
    assert Store(n) in Marks(p) ==> Touches(Marks(p), n) by {
      WrittenTouches(Marks(p), n);
    }
  }

  lemma WrittenTouches(t: seq<Event>, n: string)
    ensures Store(n) in t ==> Touches(t, n)
  {
  }

  // ---------- Running a plan ----------

  /** How a plan ends: normally, with a BREAK, CONTINUE or RETURN on its way out, or with an error. */
  datatype Ending = Done | Jumped | Failed

  /** How a loop ends after its rounds: a LOOP only by reaching the limit on their number. */
  function LoopEnd(kind: ListKind): Ending {
    if kind.Endless? then Failed else Done
  }

  /** An interleaving of two traces. */
  predicate Shuffle(a: seq<Event>, b: seq<Event>, t: seq<Event>)
    decreases |t|
  {
    if a == [] then t == b
    else if b == [] then t == a
    else t != [] && ((t[0] == a[0] && Shuffle(a[1..], b, t[1..])) || (t[0] == b[0] && Shuffle(a, b[1..], t[1..])))
  }

  /**
   The traces of scans and CTEs a plan may leave, and how it may then end.  Conditions and numbers of
   rows may be anything, and which loop or block a jump ends is left open.  A CTE has its name once its
   query has run; one whose query cannot be planned is an error.  Any other error only cuts a trace short,
   which matters where it is caught: there the trace of what was tried may stop anywhere.
   */
  ghost predicate Exec(p: PlanTree, t: seq<Event>, o: Ending)
    decreases p, 0, 0
  {
    match p
    case TableScan(n) => t == [Scan(n)] && o.Done?
    case Unary(input) => Exec(input, t, o)
    case Inputs(ps, parallel) => if parallel then ExecTogether(ps, t, o) else ExecAll(ps, t, o)
    case WithCte(ctes, body) =>
      (!o.Done? && ExecCtes(ctes, t, o)) || exists k :: 0 <= k <= |t| && ExecCtes(ctes, t[..k], Done) && Exec(body, t[k..], o)
    case WriteFrom(_, source) => Exec(source, t, o)
    case ForLoop(query, stmts) =>
      (!o.Done? && Exec(query, t, o))
      || exists k, n: nat :: 0 <= k <= |t| && Exec(query, t[..k], Done) && Rounds(stmts, t[k..], o, n, Done, true)
    case IfElse(yes, no) => ExecAll(yes, t, o) || ExecAll(no, t, o)
    case Statements(kind, stmts) =>
      if kind.Saved? then t == [] && o.Done?
      else if kind.Block? then ExecBlock(stmts, t, o)
      else exists n: nat :: (n > 0 || kind.While?) && Rounds(stmts, t, o, n, LoopEnd(kind), kind.While?)
    case Hidden(ran) => ExecAll(ran, t, o)
    case TryCatch(tried, caught) =>
      || (o.Done? && ExecBlock(tried, t, Done))
      || (tried != [] && exists k, all, end :: 0 <= k <= |t| && ExecAll(tried, all, end) && t[..k] <= all && ExecBlock(caught, t[k..], o))
    case Jump => t == [] && o.Jumped?
    case _ => t == [] && o.Done?
  }

  /** One after another, until one does not end normally. */
  ghost predicate ExecAll(ps: seq<PlanTree>, t: seq<Event>, o: Ending)
    decreases ps, 0, 0
  {
    if ps == [] then t == [] && o.Done?
    else
      (!o.Done? && Exec(ps[0], t, o)) || exists k :: 0 <= k <= |t| && Exec(ps[0], t[..k], Done) && ExecAll(ps[1..], t[k..], o)
  }

  /** A RETURN ends a block. */
  ghost predicate ExecBlock(ps: seq<PlanTree>, t: seq<Event>, o: Ending)
    decreases ps, 1, 0
  {
    ExecAll(ps, t, o) || (o.Done? && ExecAll(ps, t, Jumped))
  }

  /** Side by side: each runs, whatever becomes of the others, and the first in order that does not end normally decides. */
  ghost predicate ExecTogether(ps: seq<PlanTree>, t: seq<Event>, o: Ending)
    decreases ps, 0, 0
  {
    if ps == [] then t == [] && o.Done?
    else exists a, oa, b, ob ::
      Exec(ps[0], a, oa) && ExecTogether(ps[1..], b, ob) && Shuffle(a, b, t) && o == (if oa.Done? then ob else oa)
  }

  ghost predicate ExecCtes(ctes: seq<Cte>, t: seq<Event>, o: Ending)
    decreases ctes, 0, 0
  {
    if ctes == [] then t == [] && o.Done?
    else if ctes[0].query.None? then t == [] && o.Failed?
    else
      || (!o.Done? && Exec(ctes[0].query.value, t, o))
      || exists k :: 0 <= k < |t| && Exec(ctes[0].query.value, t[..k], Done) && t[k] == Define(Upper(ctes[0].name)) && ExecCtes(ctes[1..], t[k + 1..], o)
  }

  /**
   At most `n` rounds of a loop's body.  After them it ends as `last` says; a jump or an error in the
   body ends it before, and a CONTINUE starts the next round, or the loop's test where `tested`.
   */
  ghost predicate Rounds(stmts: seq<PlanTree>, t: seq<Event>, o: Ending, n: nat, last: Ending, tested: bool)
    decreases stmts, 1, n
  {
    if n == 0 then t == [] && o == last
    else
      || (!o.Failed? && ExecAll(stmts, t, Jumped))
      || (o.Failed? && ExecAll(stmts, t, Failed))
      || (exists k :: 0 <= k <= |t| && ExecAll(stmts, t[..k], Done) && Rounds(stmts, t[k..], o, n - 1, last, tested))
      || (exists k :: 0 <= k <= |t| && (n > 1 || tested) && ExecAll(stmts, t[..k], Jumped) && Rounds(stmts, t[k..], o, n - 1, last, tested))
  }

  // ---------- Which names a run can read from the store ----------

  /** The plan can end so without a CTE taking the name. */
  predicate Quiet(p: PlanTree, name: string, o: Ending)
    decreases p, 0
  {
    match p
    case Unary(input) => Quiet(input, name, o)
    case Inputs(ps, parallel) => if parallel then QuietTogether(ps, name, o) else QuietAll(ps, name, o)
    case WithCte(ctes, body) => (!o.Done? && QuietCtes(ctes, name, o)) || (QuietCtes(ctes, name, Done) && Quiet(body, name, o))
    case WriteFrom(_, source) => Quiet(source, name, o)
    case ForLoop(query, stmts) => (!o.Done? && Quiet(query, name, o)) || (Quiet(query, name, Done) && (o.Done? || QuietBody(stmts, name, o)))
    case IfElse(yes, no) => QuietAll(yes, name, o) || QuietAll(no, name, o)
    case Statements(kind, stmts) =>
      if kind.Saved? then o.Done?
      else if kind.Block? then QuietBlock(stmts, name, o)
      else QuietBody(stmts, name, o) || (o == LoopEnd(kind) && (kind.While? || QuietAll(stmts, name, Done)))
    case Hidden(ran) => QuietAll(ran, name, o)
    case TryCatch(tried, caught) => (o.Done? && QuietBlock(tried, name, Done)) || (tried != [] && QuietBlock(caught, name, o))
    case Jump => o.Jumped?
    case _ => o.Done?
  }

  predicate QuietBlock(ps: seq<PlanTree>, name: string, o: Ending)
    decreases ps, 1
  {
    QuietAll(ps, name, o) || (o.Done? && QuietAll(ps, name, Jumped))
  }

  predicate QuietTogether(ps: seq<PlanTree>, name: string, o: Ending)
    decreases ps, 0
  {
    if ps == [] then o.Done?
    else
      || (Quiet(ps[0], name, Done) && QuietTogether(ps[1..], name, o))
      || (!o.Done? && Quiet(ps[0], name, o)
          && (QuietTogether(ps[1..], name, Done) || QuietTogether(ps[1..], name, Jumped) || QuietTogether(ps[1..], name, Failed)))
  }

  predicate QuietAll(ps: seq<PlanTree>, name: string, o: Ending)
    decreases ps, 0
  {
    if ps == [] then o.Done?
    else (!o.Done? && Quiet(ps[0], name, o)) || (Quiet(ps[0], name, Done) && QuietAll(ps[1..], name, o))
  }

  predicate QuietCtes(ctes: seq<Cte>, name: string, o: Ending)
    decreases ctes, 0
  {
    if ctes == [] then o.Done?
    else if ctes[0].query.None? then o.Failed?
    else
      || (!o.Done? && Quiet(ctes[0].query.value, name, o))
      || (Quiet(ctes[0].query.value, name, Done) && Upper(ctes[0].name) != name && QuietCtes(ctes[1..], name, o))
  }

  /** A round of the body ends the loop so. */
  predicate QuietBody(stmts: seq<PlanTree>, name: string, o: Ending)
    decreases stmts, 1
  {
    (!o.Failed? && QuietAll(stmts, name, Jumped)) || (o.Failed? && QuietAll(stmts, name, Failed))
  }

  /** Some run scans the name before a CTE takes it, and so reads the stored table. */
  predicate Reaches(p: PlanTree, n: string)
    decreases p
  {
    match p
    case TableScan(m) => m == n
    case Unary(input) => Reaches(input, n)
    case Inputs(ps, parallel) => if parallel then ReachesAny(ps, n) else ReachesAll(ps, n)
    case WithCte(ctes, body) => ReachesCtes(ctes, n) || (QuietCtes(ctes, Upper(n), Done) && Reaches(body, n))
    case WriteFrom(_, source) => Reaches(source, n)
    case ForLoop(query, stmts) => Reaches(query, n) || (Quiet(query, Upper(n), Done) && ReachesAll(stmts, n))
    case IfElse(yes, no) => ReachesAll(yes, n) || ReachesAll(no, n)
    case Statements(kind, stmts) => !kind.Saved? && ReachesAll(stmts, n)
    case Hidden(ran) => ReachesAll(ran, n)
    case TryCatch(tried, caught) => ReachesAll(tried, n) || (tried != [] && ReachesAll(caught, n))
    case _ => false
  }

  predicate ReachesAny(ps: seq<PlanTree>, n: string)
    decreases ps
  {
    ps != [] && (Reaches(ps[0], n) || ReachesAny(ps[1..], n))
  }

  predicate ReachesAll(ps: seq<PlanTree>, n: string)
    decreases ps
  {
    ps != [] && (Reaches(ps[0], n) || (Quiet(ps[0], Upper(n), Done) && ReachesAll(ps[1..], n)))
  }

  predicate ReachesCtes(ctes: seq<Cte>, n: string)
    decreases ctes
  {
    ctes != [] && ctes[0].query.Some?
    && (Reaches(ctes[0].query.value, n)
        || (Quiet(ctes[0].query.value, Upper(n), Done) && Upper(ctes[0].name) != Upper(n) && ReachesCtes(ctes[1..], n)))
  }

  lemma Parts(a: seq<Event>, b: seq<Event>)
    ensures |a| <= |a + b| && (a + b)[..|a|] == a && (a + b)[|a|..] == b
  {
  }

  lemma Halves(t: seq<Event>, k: nat)
    requires k <= |t|
    ensures t == t[..k] + t[k..]
  {
  }

  /** A trace of one round is a trace of the loop. */
  lemma OneRound(stmts: seq<PlanTree>, t: seq<Event>, ended: Ending, last: Ending, tested: bool) returns (o: Ending)
    requires ExecAll(stmts, t, ended)
    ensures Rounds(stmts, t, o, 1, last, tested)
    ensures o == if ended.Done? then last else if ended.Jumped? then Done else Failed
  {
    o := if ended.Done? then last else if ended.Jumped? then Done else Failed;
    hide ExecAll;
    if ended.Done? {
      assert t[..|t|] == t && t[|t|..] == [];
      assert Rounds(stmts, t[|t|..], last, 0, last, tested);
    }
  }

  // ---------- Quiet runs ----------

  lemma {:induction false} QuietRun(p: PlanTree, name: string, o: Ending) returns (t: seq<Event>)
    requires Quiet(p, name, o)
    ensures Exec(p, t, o) && Define(name) !in t
    decreases p, 1
  {
    hide Upper;
    t := [];
    match p
    case TableScan(n) => t := [Scan(n)];
    case Unary(input) => t := QuietRun(input, name, o);
    case Inputs(ps, parallel) =>
      if parallel {
        t := QuietRunTogether(ps, name, o);
      } else {
        t := QuietRunAll(ps, name, o);
      }
    case WithCte(ctes, body) =>
      if !o.Done? && QuietCtes(ctes, name, o) {
        t := QuietRunCtes(ctes, name, o);
      } else {
        var a := QuietRunCtes(ctes, name, Done);
        var b := QuietRun(body, name, o);
        Parts(a, b);
        t := a + b;
      }
    case WriteFrom(_, source) => t := QuietRun(source, name, o);
    case ForLoop(query, stmts) =>
      if !o.Done? && Quiet(query, name, o) {
        t := QuietRun(query, name, o);
      } else {
        var a := QuietRun(query, name, Done);
        var b, n := QuietRounds(stmts, name, o, Done, true);
        Parts(a, b);
        t := a + b;
      }
    case IfElse(yes, no) =>
      if QuietAll(yes, name, o) {
        t := QuietRunAll(yes, name, o);
      } else {
        t := QuietRunAll(no, name, o);
      }
    case Statements(kind, stmts) =>
      if kind.Block? {
        t := QuietRunBlock(stmts, name, o);
      } else if !kind.Saved? {
        var n;
        t, n := QuietRounds(stmts, name, o, LoopEnd(kind), kind.While?);
      }
    case Hidden(ran) => t := QuietRunAll(ran, name, o);
    case TryCatch(tried, caught) =>
      if o.Done? && QuietBlock(tried, name, Done) {
        t := QuietRunBlock(tried, name, Done);
      } else {
        t := QuietRunBlock(caught, name, o);
        var all, end := SomeRunAll(tried);
        CaughtAtOnce(tried, caught, t, o, all, end);
      }
    case _ =>
  }

  lemma {:induction false} QuietRunBlock(ps: seq<PlanTree>, name: string, o: Ending) returns (t: seq<Event>)
    requires QuietBlock(ps, name, o)
    ensures ExecBlock(ps, t, o) && Define(name) !in t
    decreases ps, 2
  {
    t := QuietRunAll(ps, name, if QuietAll(ps, name, o) then o else Jumped);
  }

  /** An error before anything was scanned. */
  lemma CaughtAtOnce(tried: seq<PlanTree>, caught: seq<PlanTree>, t: seq<Event>, o: Ending, all: seq<Event>, end: Ending)
    requires tried != [] && ExecAll(tried, all, end) && ExecBlock(caught, t, o)
    ensures Exec(TryCatch(tried, caught), t, o)
  {
    hide ExecAll, ExecBlock;
    assert t[..0] <= all && t[0..] == t;
  }

  /** No round where the loop may end at once, else one. */
  lemma {:induction false} QuietRounds(stmts: seq<PlanTree>, name: string, o: Ending, last: Ending, tested: bool) returns (t: seq<Event>, n: nat)
    requires QuietBody(stmts, name, o) || (o == last && (tested || QuietAll(stmts, name, Done)))
    ensures Rounds(stmts, t, o, n, last, tested) && Define(name) !in t && (n == 0 ==> tested)
    decreases stmts, 2
  {
    if QuietBody(stmts, name, o) {
      t := QuietRunAll(stmts, name, if o.Failed? then Failed else Jumped);
      n := 1;
    } else if tested {
      t, n := [], 0;
    } else {
      t := QuietRunAll(stmts, name, Done);
      var end := OneRound(stmts, t, Done, last, tested);
      n := 1;
    }
  }

  lemma {:induction false} QuietRunAll(ps: seq<PlanTree>, name: string, o: Ending) returns (t: seq<Event>)
    requires QuietAll(ps, name, o)
    ensures ExecAll(ps, t, o) && Define(name) !in t
    decreases ps, 1
  {
    if ps == [] {
      t := [];
    } else if !o.Done? && Quiet(ps[0], name, o) {
      t := QuietRun(ps[0], name, o);
    } else {
      var a := QuietRun(ps[0], name, Done);
      var b := QuietRunAll(ps[1..], name, o);
      Parts(a, b);
      t := a + b;
    }
  }

  lemma {:induction false} QuietRunCtes(ctes: seq<Cte>, name: string, o: Ending) returns (t: seq<Event>)
    requires QuietCtes(ctes, name, o)
    ensures ExecCtes(ctes, t, o) && Define(name) !in t
    decreases ctes, 1
  {
    hide Upper;
    if ctes == [] || ctes[0].query.None? {
      t := [];
    } else if !o.Done? && Quiet(ctes[0].query.value, name, o) {
      t := QuietRun(ctes[0].query.value, name, o);
    } else {
      var a := QuietRun(ctes[0].query.value, name, Done);
      var b := QuietRunCtes(ctes[1..], name, o);
      var d := Define(Upper(ctes[0].name));
      t := a + ([d] + b);
      Parts(a, [d] + b);
      assert t[|a|] == d && t[|a| + 1..] == b;
    }
  }

  lemma {:induction false} QuietRunTogether(ps: seq<PlanTree>, name: string, o: Ending) returns (t: seq<Event>)
    requires QuietTogether(ps, name, o)
    ensures ExecTogether(ps, t, o) && Define(name) !in t
    decreases ps, 1
  {
    if ps == [] {
      t := [];
    } else {
      var oa := if Quiet(ps[0], name, Done) && QuietTogether(ps[1..], name, o) then Done else o;
      var ob := if oa.Done? then o else if QuietTogether(ps[1..], name, Done) then Done else if QuietTogether(ps[1..], name, Jumped) then Jumped else Failed;
      var a := QuietRun(ps[0], name, oa);
      var b := QuietRunTogether(ps[1..], name, ob);
      ShuffleLeftFirst(a, b);
      t := a + b;
    }
  }

  lemma {:induction false} ShuffleLeftFirst(a: seq<Event>, b: seq<Event>)
    ensures Shuffle(a, b, a + b)
    decreases |a|
  {
    if a == [] {
      assert a + b == b;
    } else if b == [] {
      assert a + b == a;
    } else {
      ShuffleLeftFirst(a[1..], b);
      assert (a + b)[1..] == a[1..] + b;
    }
  }

  lemma {:induction false} ShuffleRightFirst(a: seq<Event>, b: seq<Event>)
    ensures Shuffle(a, b, b + a)
    decreases |b|
  {
    if b == [] {
      assert b + a == a;
    } else if a == [] {
      assert b + a == b;
    } else {
      ShuffleRightFirst(a, b[1..]);
      assert (b + a)[1..] == b[1..] + a;
    }
  }

  lemma {:induction false} ShuffleDefines(a: seq<Event>, b: seq<Event>, t: seq<Event>, e: Event)
    requires Shuffle(a, b, t)
    ensures e in t <==> e in a || e in b
    decreases |t|
  {
    if a != [] && b != [] {
      assert t == [t[0]] + t[1..] && a == [a[0]] + a[1..] && b == [b[0]] + b[1..];
      if t[0] == a[0] && Shuffle(a[1..], b, t[1..]) {
        ShuffleDefines(a[1..], b, t[1..], e);
      } else {
        ShuffleDefines(a, b[1..], t[1..], e);
      }
    }
  }

  lemma {:induction false} ShuffleReads(a: seq<Event>, b: seq<Event>, t: seq<Event>, n: string)
    requires Shuffle(a, b, t) && ReadsStored(t, n)
    ensures ReadsStored(a, n) || ReadsStored(b, n)
    decreases |t|
  {
    hide Upper;
    if a != [] && b != [] && t[0] != Scan(n) {
      if t[0] == a[0] && Shuffle(a[1..], b, t[1..]) {
        ShuffleReads(a[1..], b, t[1..], n);
      } else {
        ShuffleReads(a, b[1..], t[1..], n);
      }
    }
  }

  lemma {:induction false} RunQuiet(p: PlanTree, name: string, t: seq<Event>, o: Ending)
    requires Exec(p, t, o) && Define(name) !in t
    ensures Quiet(p, name, o)
    decreases p, 1
  {
    hide Upper;
    match p
    case Unary(input) => RunQuiet(input, name, t, o);
    case Inputs(ps, parallel) =>
      if parallel {
        RunQuietTogether(ps, name, t, o);
      } else {
        RunQuietAll(ps, name, t, o);
      }
    case WithCte(ctes, body) =>
      if !o.Done? && ExecCtes(ctes, t, o) {
        RunQuietCtes(ctes, name, t, o);
      } else {
        var k :| 0 <= k <= |t| && ExecCtes(ctes, t[..k], Done) && Exec(body, t[k..], o);
        RunQuietCtes(ctes, name, t[..k], Done);
        RunQuiet(body, name, t[k..], o);
      }
    case WriteFrom(_, source) => RunQuiet(source, name, t, o);
    case ForLoop(query, stmts) =>
      if !o.Done? && Exec(query, t, o) {
        RunQuiet(query, name, t, o);
      } else {
        var k, n: nat :| 0 <= k <= |t| && Exec(query, t[..k], Done) && Rounds(stmts, t[k..], o, n, Done, true);
        RunQuiet(query, name, t[..k], Done);
        RoundsQuiet(stmts, name, t[k..], o, n, Done, true);
      }
    case IfElse(yes, no) =>
      if ExecAll(yes, t, o) {
        RunQuietAll(yes, name, t, o);
      } else {
        RunQuietAll(no, name, t, o);
      }
    case Statements(kind, stmts) =>
      if kind.Block? {
        RunQuietBlock(stmts, name, t, o);
      } else if !kind.Saved? {
        var n: nat :| (n > 0 || kind.While?) && Rounds(stmts, t, o, n, LoopEnd(kind), kind.While?);
        RoundsQuiet(stmts, name, t, o, n, LoopEnd(kind), kind.While?);
      }
    case Hidden(ran) => RunQuietAll(ran, name, t, o);
    case TryCatch(tried, caught) =>
      if o.Done? && ExecBlock(tried, t, Done) {
        RunQuietBlock(tried, name, t, Done);
      } else {
        var k :| 0 <= k <= |t| && ExecBlock(caught, t[k..], o);
        RunQuietBlock(caught, name, t[k..], o);
      }
    case _ =>
  }

  lemma {:induction false} RunQuietBlock(ps: seq<PlanTree>, name: string, t: seq<Event>, o: Ending)
    requires ExecBlock(ps, t, o) && Define(name) !in t
    ensures QuietBlock(ps, name, o)
    decreases ps, 2
  {
    RunQuietAll(ps, name, t, if ExecAll(ps, t, o) then o else Jumped);
  }

  lemma {:induction false} RunQuietTogether(ps: seq<PlanTree>, name: string, t: seq<Event>, o: Ending)
    requires ExecTogether(ps, t, o) && Define(name) !in t
    ensures QuietTogether(ps, name, o)
    decreases ps, 1
  {
    if ps != [] {
      var a, oa, b, ob :| Exec(ps[0], a, oa) && ExecTogether(ps[1..], b, ob) && Shuffle(a, b, t) && o == (if oa.Done? then ob else oa);
      ShuffleDefines(a, b, t, Define(name));
      RunQuiet(ps[0], name, a, oa);
      RunQuietTogether(ps[1..], name, b, ob);
    }
  }

  lemma {:induction false} RoundsQuiet(stmts: seq<PlanTree>, name: string, t: seq<Event>, o: Ending, n: nat, last: Ending, tested: bool)
    requires Rounds(stmts, t, o, n, last, tested) && Define(name) !in t
    ensures QuietBody(stmts, name, o)
            || (o == last && (n == 0 || QuietAll(stmts, name, Done) || (tested && QuietAll(stmts, name, Jumped))))
    decreases stmts, 2, n
  {
    hide ExecAll, QuietAll;
    if n > 0 {
      if !o.Failed? && ExecAll(stmts, t, Jumped) {
        RunQuietAll(stmts, name, t, Jumped);
      } else if o.Failed? && ExecAll(stmts, t, Failed) {
        RunQuietAll(stmts, name, t, Failed);
      } else if k :| 0 <= k <= |t| && ExecAll(stmts, t[..k], Done) && Rounds(stmts, t[k..], o, n - 1, last, tested) {
        RunQuietAll(stmts, name, t[..k], Done);
        RoundsQuiet(stmts, name, t[k..], o, n - 1, last, tested);
      } else {
        var k :| 0 <= k <= |t| && (n > 1 || tested) && ExecAll(stmts, t[..k], Jumped) && Rounds(stmts, t[k..], o, n - 1, last, tested);
        RunQuietAll(stmts, name, t[..k], Jumped);
        RoundsQuiet(stmts, name, t[k..], o, n - 1, last, tested);
      }
    }
  }

  lemma {:induction false} RunQuietAll(ps: seq<PlanTree>, name: string, t: seq<Event>, o: Ending)
    requires ExecAll(ps, t, o) && Define(name) !in t
    ensures QuietAll(ps, name, o)
    decreases ps, 1
  {
    if ps != [] {
      if !o.Done? && Exec(ps[0], t, o) {
        RunQuiet(ps[0], name, t, o);
      } else {
        var k :| 0 <= k <= |t| && Exec(ps[0], t[..k], Done) && ExecAll(ps[1..], t[k..], o);
        RunQuiet(ps[0], name, t[..k], Done);
        RunQuietAll(ps[1..], name, t[k..], o);
      }
    }
  }

  lemma {:induction false} RunQuietCtes(ctes: seq<Cte>, name: string, t: seq<Event>, o: Ending)
    requires ExecCtes(ctes, t, o) && Define(name) !in t
    ensures QuietCtes(ctes, name, o)
    decreases ctes, 1
  {
    hide Upper;
    if ctes != [] && ctes[0].query.Some? {
      var q := ctes[0].query.value;
      if !o.Done? && Exec(q, t, o) {
        RunQuiet(q, name, t, o);
      } else {
        var k :| 0 <= k < |t| && Exec(q, t[..k], Done) && t[k] == Define(Upper(ctes[0].name)) && ExecCtes(ctes[1..], t[k + 1..], o);
        assert t[k] in t;
        RunQuiet(q, name, t[..k], Done);
        RunQuietCtes(ctes[1..], name, t[k + 1..], o);
      }
    }
  }

  // ---------- Runs that read the store ----------

  /** Every plan has a run. */
  lemma {:induction false} SomeRun(p: PlanTree) returns (t: seq<Event>, o: Ending)
    ensures Exec(p, t, o)
    decreases p
  {
    hide Upper;
    t, o := [], Done;
    match p
    case TableScan(n) => t := [Scan(n)];
    case Unary(input) => t, o := SomeRun(input);
    case Inputs(ps, parallel) =>
      if parallel {
        t, o := SomeRunTogether(ps);
      } else {
        t, o := SomeRunAll(ps);
      }
    case WithCte(ctes, body) =>
      var a, oa := SomeRunCtes(ctes);
      if oa.Done? {
        var b;
        b, o := SomeRun(body);
        Parts(a, b);
        t := a + b;
      } else {
        t, o := a, oa;
      }
    case WriteFrom(_, source) => t, o := SomeRun(source);
    case ForLoop(query, stmts) =>
      t, o := SomeRun(query);
      NoRounds(stmts, t);
    case IfElse(yes, no) => t, o := SomeRunAll(yes);
    case Statements(kind, stmts) =>
      if kind.Block? {
        t, o := SomeRunAll(stmts);
      } else if !kind.Saved? {
        t, o := SomeRunAll(stmts);
        o := OneRound(stmts, t, o, LoopEnd(kind), kind.While?);
      }
    case Hidden(ran) => t, o := SomeRunAll(ran);
    case TryCatch(tried, caught) =>
      t, o := SomeRunAll(tried);
      if o.Failed? {
        var all := t;
        t, o := SomeRunAll(caught);
        CaughtAtOnce(tried, caught, t, o, all, Failed);
      } else {
        o := Done;
      }
    case Jump => o := Jumped;
    case _ =>
  }

  lemma NoRounds(stmts: seq<PlanTree>, t: seq<Event>)
    ensures t[..|t|] == t && Rounds(stmts, t[|t|..], Done, 0, Done, true)
  {
  }

  lemma {:induction false} SomeRunTogether(ps: seq<PlanTree>) returns (t: seq<Event>, o: Ending)
    ensures ExecTogether(ps, t, o)
    decreases ps
  {
    t, o := [], Done;
    if ps != [] {
      var a, oa := SomeRun(ps[0]);
      var b, ob := SomeRunTogether(ps[1..]);
      ShuffleLeftFirst(a, b);
      t, o := a + b, if oa.Done? then ob else oa;
    }
  }

  lemma {:induction false} SomeRunAll(ps: seq<PlanTree>) returns (t: seq<Event>, o: Ending)
    ensures ExecAll(ps, t, o)
    decreases ps
  {
    t, o := [], Done;
    if ps != [] {
      t, o := SomeRun(ps[0]);
      if o.Done? {
        var b;
        b, o := SomeRunAll(ps[1..]);
        Parts(t, b);
        t := t + b;
      }
    }
  }

  lemma {:induction false} SomeRunCtes(ctes: seq<Cte>) returns (t: seq<Event>, o: Ending)
    ensures ExecCtes(ctes, t, o)
    decreases ctes
  {
    t, o := [], Done;
    if ctes != [] {
      if ctes[0].query.None? {
        o := Failed;
      } else {
        t, o := SomeRun(ctes[0].query.value);
        if o.Done? {
          var b;
          b, o := SomeRunCtes(ctes[1..]);
          t := CteRuns(ctes, t, b, o);
        }
      }
    }
  }

  lemma CteRuns(ctes: seq<Cte>, a: seq<Event>, b: seq<Event>, o: Ending) returns (t: seq<Event>)
    requires ctes != [] && ctes[0].query.Some? && Exec(ctes[0].query.value, a, Done) && ExecCtes(ctes[1..], b, o)
    ensures t == a + ([Define(Upper(ctes[0].name))] + b) && ExecCtes(ctes, t, o)
  {
    hide Upper, Exec;
    var d := Define(Upper(ctes[0].name));
    t := a + ([d] + b);
    Parts(a, [d] + b);
    assert t[|a|] == d && t[|a| + 1..] == b;
  }

  /** A name within reach is read from the store by some run. */
  lemma {:induction false} ReachRun(p: PlanTree, n: string) returns (t: seq<Event>, o: Ending)
    requires Reaches(p, n)
    ensures Exec(p, t, o) && ReadsStored(t, n)
    decreases p, 1
  {
    hide Upper, ReadsStored;
    match p
    case TableScan(m) =>
      t, o := [Scan(m)], Done;
      ScanReads(n);
    case Unary(input) => t, o := ReachRun(input, n);
    case Inputs(ps, parallel) =>
      if parallel {
        t, o := ReachRunTogether(ps, n);
      } else {
        t, o := ReachRunAll(ps, n);
      }
    case WithCte(ctes, body) =>
      if ReachesCtes(ctes, n) {
        t, o := ReachRunCtes(ctes, n);
        if o.Done? {
          var b;
          b, o := SomeRun(body);
          ReadsConcat(t, b, n);
          Parts(t, b);
          t := t + b;
        }
      } else {
        var a := QuietRunCtes(ctes, Upper(n), Done);
        var b;
        b, o := ReachRun(body, n);
        ReadsConcat(a, b, n);
        Parts(a, b);
        t := a + b;
      }
    case WriteFrom(_, source) => t, o := ReachRun(source, n);
    case ForLoop(query, stmts) =>
      if Reaches(query, n) {
        t, o := ReachRun(query, n);
        if o.Done? {
          assert t[..|t|] == t && Rounds(stmts, t[|t|..], Done, 0, Done, true);
        }
      } else {
        var a := QuietRun(query, Upper(n), Done);
        var b, ob := ReachRunAll(stmts, n);
        o := OneRound(stmts, b, ob, Done, true);
        ReadsConcat(a, b, n);
        Parts(a, b);
        t := a + b;
      }
    case IfElse(yes, no) =>
      if ReachesAll(yes, n) {
        t, o := ReachRunAll(yes, n);
      } else {
        t, o := ReachRunAll(no, n);
      }
    case Statements(kind, stmts) =>
      t, o := ReachRunAll(stmts, n);
      if !kind.Block? {
        o := OneRound(stmts, t, o, LoopEnd(kind), kind.While?);
      }
    case Hidden(ran) => t, o := ReachRunAll(ran, n);
    case TryCatch(tried, caught) => t, o := ReachRunTry(tried, caught, n);
  }

  lemma {:induction false} ReachRunTry(tried: seq<PlanTree>, caught: seq<PlanTree>, n: string) returns (t: seq<Event>, o: Ending)
    requires ReachesAll(tried, n) || (tried != [] && ReachesAll(caught, n))
    ensures Exec(TryCatch(tried, caught), t, o) && ReadsStored(t, n)
    decreases TryCatch(tried, caught), 0
  {
    hide ReadsStored, ExecAll, ReachesAll;
    if ReachesAll(tried, n) {
      TriedSome(tried, n);
      var a, oa := ReachRunAll(tried, n);
      if oa.Failed? {
        var b, ob := SomeRunAll(caught);
        ReadsConcat(a, b, n);
        Parts(a, b);
        t, o := a + b, ob;
        assert t[..|a|] <= a && ExecBlock(caught, t[|a|..], o);
      } else {
        t, o := a, Done;
      }
    } else {
      var all, end := SomeRunAll(tried);
      t, o := ReachRunAll(caught, n);
      CaughtAtOnce(tried, caught, t, o, all, end);
    }
  }

  lemma TriedSome(ps: seq<PlanTree>, n: string)
    ensures ReachesAll(ps, n) ==> ps != []
  {
  }

  lemma ScanReads(n: string)
    ensures ReadsStored([Scan(n)], n)
  {
  }

  lemma {:induction false} ReachRunTogether(ps: seq<PlanTree>, n: string) returns (t: seq<Event>, o: Ending)
    requires ReachesAny(ps, n)
    ensures ExecTogether(ps, t, o) && ReadsStored(t, n)
    decreases ps, 1
  {
    hide Upper, ReadsStored;
    if Reaches(ps[0], n) {
      var a, oa := ReachRun(ps[0], n);
      var b, ob := SomeRunTogether(ps[1..]);
      ReadsConcat(a, b, n);
      ShuffleLeftFirst(a, b);
      t, o := a + b, if oa.Done? then ob else oa;
    } else {
      var a, oa := SomeRun(ps[0]);
      var b, ob := ReachRunTogether(ps[1..], n);
      ReadsConcat(b, a, n);
      ShuffleRightFirst(a, b);
      t, o := b + a, if oa.Done? then ob else oa;
    }
  }

  lemma {:induction false} ReachRunAll(ps: seq<PlanTree>, n: string) returns (t: seq<Event>, o: Ending)
    requires ReachesAll(ps, n)
    ensures ExecAll(ps, t, o) && ReadsStored(t, n)
    decreases ps, 1
  {
    hide Upper, ReadsStored;
    if Reaches(ps[0], n) {
      t, o := ReachRun(ps[0], n);
      if o.Done? {
        var b;
        b, o := SomeRunAll(ps[1..]);
        ReadsConcat(t, b, n);
        Parts(t, b);
        t := t + b;
      }
    } else {
      var a := QuietRun(ps[0], Upper(n), Done);
      var b;
      b, o := ReachRunAll(ps[1..], n);
      ReadsConcat(a, b, n);
      Parts(a, b);
      t := a + b;
    }
  }

  lemma {:induction false} ReachRunCtes(ctes: seq<Cte>, n: string) returns (t: seq<Event>, o: Ending)
    requires ReachesCtes(ctes, n)
    ensures ExecCtes(ctes, t, o) && ReadsStored(t, n)
    decreases ctes, 1
  {
    hide Upper, ReadsStored;
    var q := ctes[0].query.value;
    var d := Define(Upper(ctes[0].name));
    if Reaches(q, n) {
      t, o := ReachRun(q, n);
      if o.Done? {
        var b;
        b, o := SomeRunCtes(ctes[1..]);
        ReadsConcat(t, [d] + b, n);
        t := CteRuns(ctes, t, b, o);
      }
    } else {
      var a := QuietRun(q, Upper(n), Done);
      var b;
      b, o := ReachRunCtes(ctes[1..], n);
      ReadsConcat([d], b, n);
      ReadsConcat(a, [d] + b, n);
      t := CteRuns(ctes, a, b, o);
    }
  }

  lemma {:induction false} RunReach(p: PlanTree, n: string, t: seq<Event>, o: Ending)
    requires Exec(p, t, o) && ReadsStored(t, n)
    ensures Reaches(p, n)
    decreases p, 1
  {
    hide Upper;
    match p
    case Unary(input) => RunReach(input, n, t, o);
    case Inputs(ps, parallel) =>
      if parallel {
        RunReachTogether(ps, n, t, o);
      } else {
        RunReachAll(ps, n, t, o);
      }
    case WithCte(ctes, body) =>
      if !o.Done? && ExecCtes(ctes, t, o) {
        RunReachCtes(ctes, n, t, o);
      } else {
        var k :| 0 <= k <= |t| && ExecCtes(ctes, t[..k], Done) && Exec(body, t[k..], o);
        Halves(t, k);
        ReadsConcat(t[..k], t[k..], n);
        if ReadsStored(t[..k], n) {
          RunReachCtes(ctes, n, t[..k], Done);
        } else {
          RunQuietCtes(ctes, Upper(n), t[..k], Done);
          RunReach(body, n, t[k..], o);
        }
      }
    case WriteFrom(_, source) => RunReach(source, n, t, o);
    case ForLoop(query, stmts) =>
      if !o.Done? && Exec(query, t, o) {
        RunReach(query, n, t, o);
      } else {
        var k, m: nat :| 0 <= k <= |t| && Exec(query, t[..k], Done) && Rounds(stmts, t[k..], o, m, Done, true);
        Halves(t, k);
        ReadsConcat(t[..k], t[k..], n);
        if ReadsStored(t[..k], n) {
          RunReach(query, n, t[..k], Done);
        } else {
          RunQuiet(query, Upper(n), t[..k], Done);
          RoundsReach(stmts, n, t[k..], o, m, Done, true);
        }
      }
    case IfElse(yes, no) =>
      if ExecAll(yes, t, o) {
        RunReachAll(yes, n, t, o);
      } else {
        RunReachAll(no, n, t, o);
      }
    case Statements(kind, stmts) =>
      if kind.Block? {
        RunReachBlock(stmts, n, t, o);
      } else if kind.Saved? {
        NothingRead(n);
      } else {
        var m: nat :| (m > 0 || kind.While?) && Rounds(stmts, t, o, m, LoopEnd(kind), kind.While?);
        RoundsReach(stmts, n, t, o, m, LoopEnd(kind), kind.While?);
      }
    case Hidden(ran) => RunReachAll(ran, n, t, o);
    case TryCatch(tried, caught) => RunReachTry(tried, caught, n, t, o);
    case _ =>
  }

  lemma {:induction false} RunReachBlock(ps: seq<PlanTree>, n: string, t: seq<Event>, o: Ending)
    requires ExecBlock(ps, t, o) && ReadsStored(t, n)
    ensures ReachesAll(ps, n)
    decreases ps, 2
  {
    hide Upper, ReadsStored;
    RunReachAll(ps, n, t, if ExecAll(ps, t, o) then o else Jumped);
  }

  lemma {:induction false} RunReachTry(tried: seq<PlanTree>, caught: seq<PlanTree>, n: string, t: seq<Event>, o: Ending)
    requires Exec(TryCatch(tried, caught), t, o) && ReadsStored(t, n)
    ensures ReachesAll(tried, n) || (tried != [] && ReachesAll(caught, n))
    decreases TryCatch(tried, caught), 0
  {
    hide Upper, ReadsStored, ExecAll, ExecBlock, ReachesAll;
    if o.Done? && ExecBlock(tried, t, Done) {
      RunReachBlock(tried, n, t, Done);
    } else {
      var k, all, end :| 0 <= k <= |t| && ExecAll(tried, all, end) && t[..k] <= all && ExecBlock(caught, t[k..], o);
      Halves(t, k);
      ReadsConcat(t[..k], t[k..], n);
      if ReadsStored(t[..k], n) {
        Halves(all, k);
        ReadsConcat(all[..k], all[k..], n);
        assert all[..k] == t[..k];
        RunReachAll(tried, n, all, end);
      } else {
        RunReachBlock(caught, n, t[k..], o);
      }
    }
  }

  lemma {:induction false} RunReachTogether(ps: seq<PlanTree>, n: string, t: seq<Event>, o: Ending)
    requires ExecTogether(ps, t, o) && ReadsStored(t, n)
    ensures ReachesAny(ps, n)
    decreases ps, 1
  {
    hide Upper, ReadsStored;
    if ps == [] {
      NothingRead(n);
    } else {
      var a, oa, b, ob :| Exec(ps[0], a, oa) && ExecTogether(ps[1..], b, ob) && Shuffle(a, b, t) && o == (if oa.Done? then ob else oa);
      ShuffleReads(a, b, t, n);
      if ReadsStored(a, n) {
        RunReach(ps[0], n, a, oa);
      } else {
        RunReachTogether(ps[1..], n, b, ob);
      }
    }
  }

  lemma {:induction false} RoundsReach(stmts: seq<PlanTree>, n: string, t: seq<Event>, o: Ending, m: nat, last: Ending, tested: bool)
    requires Rounds(stmts, t, o, m, last, tested) && ReadsStored(t, n)
    ensures ReachesAll(stmts, n)
    decreases stmts, 2, m
  {
    hide Upper, ExecAll, ReachesAll, ReadsStored;
    if m > 0 {
      if !o.Failed? && ExecAll(stmts, t, Jumped) {
        RunReachAll(stmts, n, t, Jumped);
      } else if o.Failed? && ExecAll(stmts, t, Failed) {
        RunReachAll(stmts, n, t, Failed);
      } else {
        var k, oa :| 0 <= k <= |t| && ExecAll(stmts, t[..k], oa) && Rounds(stmts, t[k..], o, m - 1, last, tested);
        Halves(t, k);
        ReadsConcat(t[..k], t[k..], n);
        if ReadsStored(t[..k], n) {
          RunReachAll(stmts, n, t[..k], oa);
        } else {
          RoundsReach(stmts, n, t[k..], o, m - 1, last, tested);
        }
      }
    } else {
      NothingRead(n);
    }
  }

  lemma NothingRead(n: string)
    ensures !ReadsStored([], n)
  {
  }

  lemma {:induction false} RunReachAll(ps: seq<PlanTree>, n: string, t: seq<Event>, o: Ending)
    requires ExecAll(ps, t, o) && ReadsStored(t, n)
    ensures ReachesAll(ps, n)
    decreases ps, 1
  {
    hide Upper;
    if ps != [] {
      if !o.Done? && Exec(ps[0], t, o) {
        RunReach(ps[0], n, t, o);
      } else {
        var k :| 0 <= k <= |t| && Exec(ps[0], t[..k], Done) && ExecAll(ps[1..], t[k..], o);
        Halves(t, k);
        ReadsConcat(t[..k], t[k..], n);
        if ReadsStored(t[..k], n) {
          RunReach(ps[0], n, t[..k], Done);
        } else {
          RunQuiet(ps[0], Upper(n), t[..k], Done);
          RunReachAll(ps[1..], n, t[k..], o);
        }
      }
    }
  }

  /** Where the first query ends and its CTE has its name. */
  lemma FirstCte(ctes: seq<Cte>, t: seq<Event>, o: Ending) returns (k: nat)
    requires ctes != [] && ctes[0].query.Some? && ExecCtes(ctes, t, o) && (o.Done? || !Exec(ctes[0].query.value, t, o))
    ensures k < |t| && Exec(ctes[0].query.value, t[..k], Done) && ExecCtes(ctes[1..], t[k + 1..], o)
    ensures t == t[..k] + ([Define(Upper(ctes[0].name))] + t[k + 1..])
  {
    hide Upper, Exec;
    var d := Define(Upper(ctes[0].name));
    k :| 0 <= k < |t| && Exec(ctes[0].query.value, t[..k], Done) && t[k] == d && ExecCtes(ctes[1..], t[k + 1..], o);
    hide ExecCtes;
    CutAt(t, k);
  }

  lemma CutAt(t: seq<Event>, k: nat)
    requires k < |t|
    ensures t == t[..k] + ([t[k]] + t[k + 1..])
  {
  }

  lemma NoCteRun(ctes: seq<Cte>, t: seq<Event>, o: Ending)
    ensures ExecCtes(ctes, t, o) && (ctes == [] || ctes[0].query.None?) ==> t == []
  {
  }

  lemma {:induction false} RunReachCtes(ctes: seq<Cte>, n: string, t: seq<Event>, o: Ending)
    requires ExecCtes(ctes, t, o) && ReadsStored(t, n)
    ensures ReachesCtes(ctes, n)
    decreases ctes, 1
  {
    hide Upper, ReadsStored, Exec, ExecCtes, Reaches, Quiet;
    NothingRead(n);
    NoCteRun(ctes, t, o);
    var q := ctes[0].query.value;
    if !o.Done? && Exec(q, t, o) {
      RunReach(q, n, t, o);
    } else {
      var k := FirstCte(ctes, t, o);
      var rest := t[k + 1..];
      ReadsConcat(t[..k], [Define(Upper(ctes[0].name))] + rest, n);
      if ReadsStored(t[..k], n) {
        RunReach(q, n, t[..k], Done);
      } else {
        DefineReads(Upper(ctes[0].name), rest, n);
        RunQuiet(q, Upper(n), t[..k], Done);
        RunReachCtes(ctes[1..], n, rest, o);
      }
    }
  }

  // ---------- Every table read is recorded ----------

  /** In every run, every stored table that is read is in the access set. */
  ghost predicate Complete(p: PlanTree) {
    forall t, o, n | Exec(p, t, o) && ReadsStored(t, n) :: n in Extract(p)
  }

  /** The names some run reads from the store are those within reach. */
  lemma ReachesIff(p: PlanTree, n: string)
    ensures Reaches(p, n) <==> exists t, o :: Exec(p, t, o) && ReadsStored(t, n)
  {
    hide *;
    if Reaches(p, n) {
      var t, o := ReachRun(p, n);
    }
    if t, o :| Exec(p, t, o) && ReadsStored(t, n) {
      RunReach(p, n, t, o);
    }
  }

  /** A name read in a run is missed exactly when it is no target and a CTE of that name is collected before each of its scans. */
  lemma MissedIff(p: PlanTree, t: seq<Event>, o: Ending, n: string)
    requires Exec(p, t, o) && ReadsStored(t, n)
    ensures n !in Extract(p)
            <==> !Touches(Marks(p), n) && forall i | 0 <= i < |Marks(p)| && Marks(p)[i] == Scan(n) :: Define(Upper(n)) in Marks(p)[..i]
  {
    hide *;
    RecordedIff(p, n);
    ReadsStoredAt(Marks(p), n);
  }

  /** The name is used whatever CTEs there are, or some scan of it is collected before every CTE of its name. */
  predicate Collectible(p: PlanTree, n: string) {
    Touches(Marks(p), n) || ReadsStored(Marks(p), n)
  }

  /**
   Extraction is complete for all runs of a plan exactly when each name within reach is a target or has a scan
   collected before every CTE of its name.
   */
  lemma CompleteIff(p: PlanTree)
    ensures Complete(p) <==> forall n | Reaches(p, n) :: Collectible(p, n)
  {
    hide Exec, ReadsStored, Touches, Extract, Reaches, Marks;
    forall n
      ensures n in Extract(p) <==> Collectible(p, n)
      ensures Reaches(p, n) <==> exists t, o :: Exec(p, t, o) && ReadsStored(t, n)
    {
      RecordedIff(p, n);
      ReachesIff(p, n);
    }
  }

  /** `WITH t AS (SELECT ... FROM t) SELECT ... FROM t`: the CTE's query reads the stored table, which is not recorded. */
  lemma OwnNameMissed() returns (t: seq<Event>, o: Ending)
    ensures var p := WithCte([Cte("T", Some(TableScan("T")))], TableScan("T"));
            Exec(p, t, o) && ReadsStored(t, "T") && "T" !in Extract(p)
  {
    UpperT();
    var ctes := [Cte("T", Some(TableScan("T")))];
    CteMarksOfOne(ctes[0]);
    var p := WithCte(ctes, TableScan("T"));
    assert Marks(TableScan("T")) == [Scan("T")] && Marks(p) == CteMarks(ctes) + [Scan("T")];
    assert Reaches(TableScan("T"), "T") && ReachesCtes(ctes, "T") && Reaches(p, "T");
    hide *;
    t, o := TwoScansMissed(p);
  }

  /** `IF ... THEN WITH t AS ... SELECT ... FROM t; ELSE SELECT ... FROM t; END IF`, the ELSE branch taken. */
  lemma ElseBranchMissed() returns (t: seq<Event>, o: Ending)
    ensures var p := IfElse([WithCte([Cte("T", Some(NoTables))], TableScan("T"))], [TableScan("T")]);
            Exec(p, t, o) && ReadsStored(t, "T") && "T" !in Extract(p)
  {
    UpperT();
    var ctes := [Cte("T", Some(NoTables))];
    var yes, no := [WithCte(ctes, TableScan("T"))], [TableScan("T")];
    MarksOfOne(yes[0]);
    MarksOfOne(no[0]);
    CteMarksOfOne(ctes[0]);
    var p := IfElse(yes, no);
    assert Marks(NoTables) == [] && Marks(TableScan("T")) == [Scan("T")];
    assert Marks(yes[0]) == CteMarks(ctes) + [Scan("T")] && Marks(p) == Marks(yes[0]) + [Scan("T")];
    assert Reaches(no[0], "T") && ReachesAll(no, "T") && Reaches(p, "T");
    hide *;
    t, o := TwoScansMissed(p);
  }

  /** Inputs side by side, `(WITH t AS ... SELECT ... FROM t) UNION ALL SELECT ... FROM t`: the second may read the stored table. */
  lemma ParallelUnionMissed() returns (t: seq<Event>, o: Ending)
    ensures var p := Inputs([WithCte([Cte("T", Some(NoTables))], TableScan("T")), TableScan("T")], true);
            Exec(p, t, o) && ReadsStored(t, "T") && "T" !in Extract(p)
  {
    UpperT();
    var ctes := [Cte("T", Some(NoTables))];
    var first, second := WithCte(ctes, TableScan("T")), TableScan("T");
    var p := Inputs([first, second], true);
    MarksOfOne(second);
    CteMarksOfOne(ctes[0]);
    assert [first, second][1..] == [second];
    assert Marks(NoTables) == [] && Marks(second) == [Scan("T")] && Marks(first) == CteMarks(ctes) + [Scan("T")];
    assert Marks(p) == Marks(first) + MarksOf([second]);
    assert Reaches(second, "T") && ReachesAny([second], "T") && Reaches(p, "T");
    hide *;
    t, o := TwoScansMissed(p);
  }

  /** The body of a block with an EXCEPTION part is not looked into, so nothing it reads is recorded; nor is that of a CALL. */
  lemma HiddenMissed(n: string, caught: seq<PlanTree>) returns (t: seq<Event>, o: Ending)
    ensures Exec(TryCatch([TableScan(n)], caught), t, o) && ReadsStored(t, n) && Extract(TryCatch([TableScan(n)], caught)) == map[]
    ensures Exec(Hidden([TableScan(n)]), t, o) && Extract(Hidden([TableScan(n)])) == map[]
  {
    ScanReads(n);
    OneScanRun(n);
    t, o := [Scan(n)], Done;
    assert ExecBlock([TableScan(n)], t, Done);
  }

  lemma OneScanRun(n: string)
    ensures ExecAll([TableScan(n)], [Scan(n)], Done)
  {
    var t := [Scan(n)];
    assert [TableScan(n)][1..] == [] && t[..1] == t && t[1..] == [];
    assert Exec(TableScan(n), t[..1], Done) && ExecAll([], t[1..], Done);
  }

  lemma MarksOfOne(p: PlanTree)
    ensures MarksOf([p]) == Marks(p)
  {
    assert [p][1..] == [] && Marks(p) + [] == Marks(p);
  }

  lemma CteMarksOfOne(cte: Cte)
    ensures CteMarks([cte]) == [Define(Upper(cte.name))] + (if cte.query.Some? then Marks(cte.query.value) else [])
  {
    hide Upper;
    assert [cte][1..] == [];
  }

  lemma UpperT()
    ensures Upper("T") == "T"
  {
  }

  lemma TwoScansMissed(p: PlanTree) returns (t: seq<Event>, o: Ending)
    requires Upper("T") == "T" && Marks(p) == [Define("T"), Scan("T"), Scan("T")] && Reaches(p, "T")
    ensures Exec(p, t, o) && ReadsStored(t, "T") && "T" !in Extract(p)
  {
    hide Upper, Marks, Reaches, Exec, Extract;
    t, o := ReachRun(p, "T");
    RecordedIff(p, "T");
  }

  /** No table the plan scans has the name of one of its CTEs. */
  predicate NoNameReused(p: PlanTree) {
    forall i | 0 <= i < |Marks(p)| && Marks(p)[i].Scan? :: Define(Upper(Marks(p)[i].name)) !in Marks(p)
  }

  /** Nothing is run that was not looked into. */
  predicate AllCollected(p: PlanTree)
    decreases p
  {
    match p
    case Unary(input) => AllCollected(input)
    case Inputs(ps, _) => EachCollected(ps)
    case WithCte(ctes, body) => CtesCollected(ctes) && AllCollected(body)
    case WriteFrom(_, source) => AllCollected(source)
    case ForLoop(query, stmts) => AllCollected(query) && EachCollected(stmts)
    case IfElse(yes, no) => EachCollected(yes) && EachCollected(no)
    case Statements(_, stmts) => EachCollected(stmts)
    case Hidden(_) => false
    case TryCatch(_, _) => false
    case _ => true
  }

  predicate EachCollected(ps: seq<PlanTree>)
    decreases ps
  {
    ps == [] || (AllCollected(ps[0]) && EachCollected(ps[1..]))
  }

  predicate CtesCollected(ctes: seq<Cte>)
    decreases ctes
  {
    ctes == [] || ((ctes[0].query.Some? ==> AllCollected(ctes[0].query.value)) && CtesCollected(ctes[1..]))
  }

  /** Every table read in any run and every target is recorded. */
  lemma ExtractComplete(p: PlanTree)
    requires NoNameReused(p) && AllCollected(p)
    ensures Complete(p) && Targets(p) <= Extract(p).Keys
  {
    hide Upper, Collect, Targets, Marks, Reaches, ReadsStored, Exec, AllCollected;
    WriteWins(p);
    assert forall n | n in Targets(p) :: IsWrite(Extract(p), n);
    forall n | Reaches(p, n)
      ensures Collectible(p, n)
    {
      ReachesScanned(p, n);
      ReadsStoredAt(Marks(p), n);
      var i :| 0 <= i < |Marks(p)| && Marks(p)[i] == Scan(n);
      assert Define(Upper(n)) !in Marks(p)[..i];
    }
    CompleteIff(p);
  }

  lemma {:induction false} ReachesScanned(p: PlanTree, n: string)
    requires Reaches(p, n) && AllCollected(p)
    ensures Scan(n) in Marks(p)
    decreases p
  {
    hide Upper, Quiet, QuietCtes;
    match p
    case Unary(input) => ReachesScanned(input, n);
    case Inputs(ps, parallel) =>
      if parallel {
        ReachesScannedAny(ps, n);
      } else {
        ReachesScannedAll(ps, n);
      }
    case WithCte(ctes, body) =>
      if ReachesCtes(ctes, n) {
        ReachesScannedCtes(ctes, n);
      } else {
        ReachesScanned(body, n);
      }
    case WriteFrom(_, source) => ReachesScanned(source, n);
    case ForLoop(query, stmts) =>
      if Reaches(query, n) {
        ReachesScanned(query, n);
      } else {
        ReachesScannedAll(stmts, n);
      }
    case IfElse(yes, no) =>
      if ReachesAll(yes, n) {
        ReachesScannedAll(yes, n);
      } else {
        ReachesScannedAll(no, n);
      }
    case Statements(_, stmts) => ReachesScannedAll(stmts, n);
    case _ =>
  }

  lemma {:induction false} ReachesScannedAll(ps: seq<PlanTree>, n: string)
    requires ReachesAll(ps, n) && EachCollected(ps)
    ensures Scan(n) in MarksOf(ps)
    decreases ps
  {
    hide Upper, Quiet;
    if Reaches(ps[0], n) {
      ReachesScanned(ps[0], n);
    } else {
      ReachesScannedAll(ps[1..], n);
    }
  }

  lemma {:induction false} ReachesScannedAny(ps: seq<PlanTree>, n: string)
    requires ReachesAny(ps, n) && EachCollected(ps)
    ensures Scan(n) in MarksOf(ps)
    decreases ps
  {
    hide Upper, Quiet;
    if Reaches(ps[0], n) {
      ReachesScanned(ps[0], n);
    } else {
      ReachesScannedAny(ps[1..], n);
    }
  }

  lemma {:induction false} ReachesScannedCtes(ctes: seq<Cte>, n: string)
    requires ReachesCtes(ctes, n) && CtesCollected(ctes)
    ensures Scan(n) in CteMarks(ctes)
    decreases ctes
  {
    hide Upper, Quiet;
    if Reaches(ctes[0].query.value, n) {
      ReachesScanned(ctes[0].query.value, n);
    } else {
      ReachesScannedCtes(ctes[1..], n);
    }
  }

  /** The names that are written only if the table happens to exist. */
  predicate OnlyOptional(a: Accesses, n: string) {
    n in a && a[n].WriteOptional?
  }

  /**
   From the plan to its tables: once the access set is acquired with an empty search path, a lookup of any
   target, or of any name a run reads from the store, succeeds.
   */
  lemma StatementFindsItsTables(c: Catalog, p: PlanTree, t: seq<Event>, o: Ending, n: string)
    requires Complete(p) && c.searchPath == [] && CanAcquire(c, Extract(p))
    requires n in Targets(p) || (Exec(p, t, o) && ReadsStored(t, n) && !OnlyOptional(Extract(p), n))
    ensures Upper(n) in c.tables && Lookup(Acquired(c, Extract(p)), n) == Some(c.tables[Upper(n)])
  {
    hide Upper, Targets, Extract, Lookup, CanAcquire, Exec, ReadsStored;
    WriteWins(p);
    assert n in Targets(p) ==> IsWrite(Extract(p), n);
    AcquiredIsFound(c, Extract(p), n);
  }

  // ---------- Which tables must exist, and which are copied for writing ----------

  /** A read of the name that is recorded if nothing is recorded of it yet. */
  predicate ReadAt(t: seq<Event>, n: string, i: nat)
    requires i < |t|
  {
    t[i] == Copy(n) || (t[i] == Scan(n) && Define(Upper(n)) !in t[..i])
  }

  /** The name is read before any write of it that is optional. */
  predicate ReadFirst(t: seq<Event>, n: string) {
    exists i :: 0 <= i < |t| && ReadAt(t, n, i) && TryStore(n) !in t[..i]
  }

  /** The name is written, or read before any optional write of it. */
  predicate MustExist(t: seq<Event>, n: string) {
    Store(n) in t || ReadFirst(t, n)
  }

  /** The name is written, or written if it exists before any read of it. */
  predicate Written(t: seq<Event>, n: string) {
    Store(n) in t || (TryStore(n) in t && !ReadFirst(t, n))
  }

  /** The same where a CTE may have taken the name already, which hides scans only. */
  predicate FreeRead(t: seq<Event>, n: string, taken: bool) {
    exists i :: 0 <= i < |t| && FreeAt(t, n, taken, i)
  }

  predicate FreeAt(t: seq<Event>, n: string, taken: bool, i: nat)
    requires i < |t|
  {
    ReadAt(t, n, i) && (t[i].Scan? ==> !taken) && TryStore(n) !in t[..i]
  }

  lemma FreeReadStep(t: seq<Event>, n: string, taken: bool)
    requires t != []
    ensures FreeRead(t, n, taken)
            <==> || t[0] == Copy(n) || (t[0] == Scan(n) && !taken)
                 || (t[0] != TryStore(n) && FreeRead(t[1..], n, taken || t[0] == Define(Upper(n))))
  {
    hide Upper;
    var next := taken || t[0] == Define(Upper(n));
    assert t[..0] == [];
    assert t[0] == Copy(n) || (t[0] == Scan(n) && !taken) ==> FreeAt(t, n, taken, 0);
    forall i | 0 <= i < |t| - 1
      ensures FreeAt(t, n, taken, i + 1) <==> t[0] != TryStore(n) && FreeAt(t[1..], n, next, i)
    {
      assert t[..i + 1] == [t[0]] + t[1..][..i];
    }
    if i :| 0 <= i < |t| && FreeAt(t, n, taken, i) {
      if i > 0 {
        assert FreeAt(t, n, taken, i - 1 + 1);
        assert FreeAt(t[1..], n, next, i - 1);
      }
    }
    if t[0] != TryStore(n) && FreeRead(t[1..], n, next) {
      var i :| 0 <= i < |t[1..]| && FreeAt(t[1..], n, next, i);
      assert FreeAt(t, n, taken, i + 1);
    }
  }

  lemma {:induction false} FirstUseKinds(t: seq<Event>, n: string, taken: bool)
    requires Store(n) !in t
    ensures FirstUse(t, n, taken)
            == if FreeRead(t, n, taken) then Some(Read) else if TryStore(n) in t then Some(WriteOptional) else None
    decreases |t|
  {
    hide Upper, FreeRead;
    if t == [] {
      assert !FreeRead(t, n, taken) by {
        NoFreeRead(n, taken);
      }
    } else {
      assert t == [t[0]] + t[1..];
      FirstUseKinds(t[1..], n, taken || t[0] == Define(Upper(n)));
      FreeReadStep(t, n, taken);
    }
  }

  lemma NoFreeRead(n: string, taken: bool)
    ensures !FreeRead([], n, taken)
  {
  }

  /** How a name is recorded, by the order of its uses. */
  lemma EntryIs(p: PlanTree, n: string)
    ensures var t := Marks(p);
            Entry(Extract(p), n) == if Store(n) in t then Some(Write)
                                    else if ReadFirst(t, n) then Some(Read)
                                    else if TryStore(n) in t then Some(WriteOptional)
                                    else None
  {
    hide Upper, Collect, Marks, FirstUse, FreeRead, ReadFirst;
    var t := Marks(p);
    CollectTracks(p, Collected(map[], {}));
    if Store(n) !in t {
      FirstUseKinds(t, n, false);
      FreeReadIsFirst(t, n);
    }
  }

  lemma FreeReadIsFirst(t: seq<Event>, n: string)
    ensures FreeRead(t, n, false) <==> ReadFirst(t, n)
  {
    hide ReadAt;
    if i :| 0 <= i < |t| && FreeAt(t, n, false, i) {
      assert ReadAt(t, n, i);
    }
    if i :| 0 <= i < |t| && ReadAt(t, n, i) && TryStore(n) !in t[..i] {
      assert FreeAt(t, n, false, i);
    }
  }

  /** An access set can be acquired exactly when every name that is written, or read before any optional write of it, resolves to a table. */
  lemma CanAcquireIff(c: Catalog, p: PlanTree)
    ensures CanAcquire(c, Extract(p)) <==> forall n | MustExist(Marks(p), n) :: Resolve(c, n) in c.tables
  {
    hide Resolve, Extract, Marks, ReadFirst;
    forall n
      ensures n in Extract(p) && !Extract(p)[n].WriteOptional? <==> MustExist(Marks(p), n)
    {
      EntryIs(p, n);
    }
  }

  /** There is a copy for writing of exactly the tables that some name resolves to which is written, or written if it exists before any read of it. */
  lemma WriteCopyIff(c: Catalog, p: PlanTree, k: string)
    ensures var copies := Acquired(c, Extract(p)).writeTables;
            && (k in copies <==> k in c.tables && exists n :: Resolve(c, n) == k && Written(Marks(p), n))
            && (k in copies ==> copies[k] == c.tables[k])
  {
    hide Resolve, Extract, Marks, ReadFirst;
    forall n
      ensures n in Extract(p) && !Extract(p)[n].Read? <==> Written(Marks(p), n)
    {
      EntryIs(p, n);
    }
    assert k in ResolvedNames(c, Extract(p), false) <==> exists n :: Resolve(c, n) == k && Written(Marks(p), n);
  }

  /** And one for reading of those a name resolves to which is read first and written nowhere but optionally. */
  lemma ReadCopyIff(c: Catalog, p: PlanTree, k: string)
    ensures var copies := Acquired(c, Extract(p)).readTables;
            && (k in copies <==> k in c.tables && exists n :: Resolve(c, n) == k && Store(n) !in Marks(p) && ReadFirst(Marks(p), n))
            && (k in copies ==> copies[k] == c.tables[k])
  {
    hide Resolve, Extract, Marks, ReadFirst;
    forall n
      ensures n in Extract(p) && Extract(p)[n].Read? <==> Store(n) !in Marks(p) && ReadFirst(Marks(p), n)
    {
      EntryIs(p, n);
    }
    assert k in ResolvedNames(c, Extract(p), true) <==> exists n :: Resolve(c, n) == k && Store(n) !in Marks(p) && ReadFirst(Marks(p), n);
  }

  /**
   With an empty search path: a name written only if it exists, before any read of it, is copied for writing
   exactly when its table exists, and acquiring does not ask for the table on its account.
   */
  lemma OptionalCopy(c: Catalog, p: PlanTree, n: string)
    requires c.searchPath == [] && TryStore(n) in Marks(p) && !ReadFirst(Marks(p), n)
    ensures Upper(n) in Acquired(c, Extract(p)).writeTables <==> Upper(n) in c.tables
    ensures Store(n) !in Marks(p) ==> !MustExist(Marks(p), n)
  {
    EmptyPathResolves(c, n);
    hide Upper, Resolve, Extract, Marks, ReadFirst, Acquired;
    WriteCopyIff(c, p, Upper(n));
    assert Written(Marks(p), n);
  }

  // ---------- The collector's mutable state ----------

  class AccessCollector {
    var accesses: Accesses
    var cteNames: set<string>

    constructor ()
      ensures State() == Collected(map[], {})
    {
      accesses, cteNames := map[], {};
    }

    function State(): Collected
      reads this
    {
      Collected(accesses, cteNames)
    }

    method RecordRead(n: string)
      modifies this`accesses
      ensures accesses == AddRead(old(accesses), n)
    {
      if n !in accesses {
        accesses := accesses[n := Read];
      }
    }

    method RecordWrite(n: string)
      modifies this`accesses
      ensures accesses == AddWrite(old(accesses), n)
    {
      accesses := accesses[n := Write];
    }

    method RecordWriteOptional(n: string)
      modifies this`accesses
      ensures accesses == AddWriteOptional(old(accesses), n)
    {
      if n !in accesses {
        accesses := accesses[n := WriteOptional];
      }
    }

    method CollectAccesses(p: PlanTree)
      modifies this
      ensures State() == Collect(p, old(State()))
      decreases p, 1
    {
      match p {
        case TableScan(n) =>
          if Upper(n) !in cteNames {
            RecordRead(n);
          }
        case Unary(input) => CollectAccesses(input);
        case Inputs(ps, _) => CollectEach(ps);
        case WithCte(ctes, body) =>
          CollectEachCte(ctes);
          CollectAccesses(body);
        case WriteFrom(n, source) =>
          RecordWrite(n);
          CollectAccesses(source);
        case WriteTo(n, optional) =>
          if optional {
            RecordWriteOptional(n);
          } else {
            RecordWrite(n);
          }
        case CreateSnapshot(n) => RecordRead(n);
        case ForLoop(query, stmts) =>
          CollectAccesses(query);
          CollectEach(stmts);
        case IfElse(t, e) =>
          CollectEach(t);
          CollectEach(e);
        case Statements(_, stmts) => CollectEach(stmts);
        case Hidden(_) =>
        case TryCatch(_, _) =>
        case Jump =>
        case NoTables =>
      }
    }

    method CollectEach(ps: seq<PlanTree>)
      modifies this
      ensures State() == CollectAll(ps, old(State()))
      decreases ps, 0
    {
      for i := 0 to |ps|
        invariant CollectAll(ps[i..], State()) == CollectAll(ps, old(State()))
      {
        assert ps[i..][0] == ps[i] && ps[i..][1..] == ps[i + 1..];
        CollectAccesses(ps[i]);
      }
    }

    method CollectEachCte(ctes: seq<Cte>)
      modifies this
      ensures State() == CollectCtes(ctes, old(State()))
      decreases ctes, 0
    {
      hide Upper;
      for i := 0 to |ctes|
        invariant CollectCtes(ctes[i..], State()) == CollectCtes(ctes, old(State()))
      {
        assert ctes[i..][0] == ctes[i] && ctes[i..][1..] == ctes[i + 1..];
        cteNames := cteNames + {Upper(ctes[i].name)};
        if ctes[i].query.Some? {
          CollectAccesses(ctes[i].query.value);
        }
      }
    }
  }
}

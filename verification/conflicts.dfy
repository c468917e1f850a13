/**
 Which pairs of access sets are safe to run side by side (`concurrent_catalog.rs`, `async_executor.rs`).
 Two statements give what they give in every serial order, whatever they do and however their steps
 interleave, exactly when their access sets do not conflict; and what they give in some serial order
 exactly when they conflict on at most one name, which only one of them writes.
 */
module Conflicts {
  import opened Wrappers
  import opened Ir
  import opened Tables
  import opened TableProtocol

  type Access = map<string, AccessType>

  /** The names both use and at least one may write. */
  function ConflictNames(a: Access, b: Access): set<string> {
    set n | n in a && n in b && (!a[n].Read? || !b[n].Read?)
  }

  // ---------- Serial orders of two statements ----------

  /** A process ended with this answer. */
  predicate Told(p: Phase, a: Answer) {
    if p.Finished? then a.Answered? && a.result == p.result else p.Rejected? && a.Error?
  }

  /** The tables and both answers are those of running `s` and then `t`. */
  predicate InOrder(s: Statement, t: Statement, db: Database, final: Database, p: Phase, q: Phase) {
    && final == AfterStatement(t, AfterStatement(s, db))
    && Told(p, AnswerOn(s, db))
    && Told(q, AnswerOn(t, AfterStatement(s, db)))
  }

  /** What both processes came to, in the order first statement, second statement. */
  predicate FirstThenSecond(s: Statement, t: Statement, db: Database, w: World)
    requires |w.phases| == 2
  {
    InOrder(s, t, db, w.db, w.phases[0], w.phases[1])
  }

  predicate SecondThenFirst(s: Statement, t: Statement, db: Database, w: World)
    requires |w.phases| == 2
  {
    InOrder(t, s, db, w.db, w.phases[1], w.phases[0])
  }

  function RunBoth(s: Statement, t: Statement, db: Database, schedule: seq<Step>): (w: World)
    ensures |w.phases| == 2
  {
    Run([s, t], Start([s, t], db), schedule)
  }

  /** Every copy taken for writing is written back, changed or not. */
  ghost predicate WritesAll(s: Statement) {
    Confined(s) && forall r: Database, w: Database | w.Keys <= WriteSet(s) :: s.run(r, w).Answered? ==> s.run(r, w).writes.Keys == w.Keys
  }

  /** Statements with these access sets, and a schedule that lets both end. */
  ghost predicate Ends(a: Access, b: Access, s: Statement, t: Statement, db: Database, schedule: seq<Step>) {
    s.accesses == a && t.accesses == b && WritesAll(s) && WritesAll(t) && AllDone(RunBoth(s, t, db, schedule))
  }

  ghost predicate AlwaysInBothOrders(a: Access, b: Access) {
    forall s, t, db, schedule | Ends(a, b, s, t, db, schedule) ::
      FirstThenSecond(s, t, db, RunBoth(s, t, db, schedule)) && SecondThenFirst(s, t, db, RunBoth(s, t, db, schedule))
  }

  ghost predicate AlwaysInSomeOrder(a: Access, b: Access) {
    forall s, t, db, schedule | Ends(a, b, s, t, db, schedule) ::
      FirstThenSecond(s, t, db, RunBoth(s, t, db, schedule)) || SecondThenFirst(s, t, db, RunBoth(s, t, db, schedule))
  }

  // ---------- Without conflict, every order ----------

  lemma SerialOfTwo(s: Statement, t: Statement, db: Database)
    ensures Serial([s, t], [], db) == db
    ensures Serial([s, t], [0], db) == AfterStatement(s, db) && Serial([s, t], [1], db) == AfterStatement(t, db)
    ensures Serial([s, t], [0, 1], db) == AfterStatement(t, AfterStatement(s, db))
    ensures Serial([s, t], [1, 0], db) == AfterStatement(s, AfterStatement(t, db))
  {
    hide AfterStatement;
    assert [0][..0] == [] && [1][..0] == [] && [0, 1][..1] == [0] && [1, 0][..1] == [1];
    assert Serial([s, t], [], db) == db;
    assert Serial([s, t], [0], db) == AfterStatement(s, db) && Serial([s, t], [1], db) == AfterStatement(t, db);
  }

  lemma NoConflict(s: Statement, t: Statement)
    requires ConflictNames(s.accesses, t.accesses) == {} && Confined(s) && Confined(t)
    ensures NonConflicting([s, t]) && AllConfined([s, t])
  {
    hide Confined;
    forall n | n in WriteSet(s)
      ensures n !in t.accesses
    {
      assert n !in ConflictNames(s.accesses, t.accesses);
    }
    forall n | n in WriteSet(t)
      ensures n !in s.accesses
    {
      assert n !in ConflictNames(s.accesses, t.accesses);
    }
  }

  lemma NoConflictBothOrders(s: Statement, t: Statement, db: Database, schedule: seq<Step>)
    requires ConflictNames(s.accesses, t.accesses) == {} && Confined(s) && Confined(t) && AllDone(RunBoth(s, t, db, schedule))
    ensures FirstThenSecond(s, t, db, RunBoth(s, t, db, schedule)) && SecondThenFirst(s, t, db, RunBoth(s, t, db, schedule))
  {
    hide Run, Serial, AfterStatement, AnswerOn, Confined, NonConflicting, ConflictNames;
    var ss := [s, t];
    NoConflict(s, t);
    SerialOfTwo(s, t, db);
    assert OnceEach([0, 1], 2) && OnceEach([1, 0], 2) by {
      assert 0 in [0, 1] && 1 in [0, 1] && 0 in [1, 0] && 1 in [1, 0];
    }
    assert [0, 1][..0] == [] && [0, 1][..1] == [0] && [1, 0][..0] == [] && [1, 0][..1] == [1];
    Serializable(ss, db, schedule, [0, 1]);
    Serializable(ss, db, schedule, [1, 0]);
    SameAnswers(ss, db, schedule, [0, 1], 0);
    SameAnswers(ss, db, schedule, [0, 1], 1);
    SameAnswers(ss, db, schedule, [1, 0], 0);
    SameAnswers(ss, db, schedule, [1, 0], 1);
  }

  // ---------- Running one process on ----------

  lemma {:induction false} RunConcat(ss: seq<Statement>, w: World, a: seq<Step>, b: seq<Step>)
    requires |w.phases| == |ss|
    ensures Run(ss, w, a + b) == Run(ss, Run(ss, w, a), b)
    decreases |b|
  {
    hide Next;
    if b == [] {
      assert a + b == a;
    } else {
      RunConcat(ss, w, a, b[..|b| - 1]);
      assert (a + b)[..|a + b| - 1] == a + b[..|b| - 1];
    }
  }

  lemma RunOne(ss: seq<Statement>, w: World, step: Step)
    requires |w.phases| == |ss|
    ensures Run(ss, w, [step]) == Next(ss, w, step)
  {
    hide Next;
    assert [step][..0] == [];
  }

  /** Another process than `i` is as it was. */
  ghost predicate OnlyMoved(w: World, w': World, i: nat) {
    |w'.phases| == |w.phases| && forall j | 0 <= j < |w.phases| && j != i :: w'.phases[j] == w.phases[j]
  }

  /** A process that is committing can write all it has pending back and finish. */
  lemma {:induction false} CommitsAlone(ss: seq<Statement>, w: World, i: nat) returns (schedule: seq<Step>)
    requires |w.phases| == |ss| && i < |ss| && w.phases[i].Committing?
    ensures var w' := Run(ss, w, schedule);
            && OnlyMoved(w, w', i)
            && w'.phases[i] == Finished(w.phases[i].result)
            && w'.db == WriteBack(w.db, w.phases[i].pending)
    decreases w.phases[i].pending.Keys
  {
    hide Run;
    var p := w.phases[i];
    if p.pending == map[] {
      schedule := [Step(i, Finish)];
      RunOne(ss, w, Step(i, Finish));
      assert WriteBack(w.db, p.pending) == w.db;
    } else {
      var n :| n in p.pending;
      var step := Step(i, CopyOut(n));
      var next := Next(ss, w, step);
      assert n !in (p.pending - {n}).Keys;
      var rest := CommitsAlone(ss, next, i);
      schedule := [step] + rest;
      RunOne(ss, w, step);
      RunConcat(ss, w, [step], rest);
      OneWritten(w.db, p.pending, n);
    }
  }

  lemma OneWritten(db: Database, pending: Database, n: string)
    requires n in pending
    ensures WriteBack(if n in db then db[n := pending[n]] else db, pending - {n}) == WriteBack(db, pending)
  {
  }

  /** What copies taken now and earlier amount to: the tables as `view` has them. */
  ghost predicate Sees(s: Statement, view: Database, now: Database, p: Phase) {
    && p.Copying? && OnTrack(s, view, p) && view.Keys == now.Keys
    && forall n | n in s.accesses && n in view && n !in p.done :: now[n] == view[n]
  }

  /** A process that is copying can go on to execute, on what it sees, before any other step. */
  lemma {:induction false} ExecutesAlone(ss: seq<Statement>, w: World, i: nat, view: Database) returns (schedule: seq<Step>)
    requires |w.phases| == |ss| && i < |ss| && Sees(ss[i], view, w.db, w.phases[i])
    ensures var w' := Run(ss, w, schedule);
            var a := AnswerOn(ss[i], view);
            && OnlyMoved(w, w', i) && w'.db == w.db
            && w'.phases[i] == if a.Error? then Rejected else Committing(a.result, a.writes)
    decreases ss[i].accesses.Keys - w.phases[i].done
  {
    hide Run, AnswerOn, OnTrack;
    var s, p := ss[i], w.phases[i];
    if p.done == s.accesses.Keys {
      schedule := [Step(i, Execute)];
      RunOne(ss, w, Step(i, Execute));
      ExecutesOn(s, view, p);
    } else {
      DoneWithin(s, view, p);
      var n :| n in s.accesses && n !in p.done;
      var step := Step(i, CopyIn(n));
      var next := Next(ss, w, step);
      RunOne(ss, w, step);
      CopyInOnTrack(s, view, w.db, p, n);
      schedule := [step];
      if next.phases[i].Rejected? {
        RejectedAnswer(s, view);
      } else {
        var rest := ExecutesAlone(ss, next, i, view);
        schedule := [step] + rest;
        RunConcat(ss, w, [step], rest);
      }
    }
  }

  lemma DoneWithin(s: Statement, view: Database, p: Phase)
    requires p.Copying? && OnTrack(s, view, p)
    ensures p.done <= s.accesses.Keys
  {
  }

  lemma RejectedAnswer(s: Statement, view: Database)
    ensures OnTrack(s, view, Rejected) <==> AnswerOn(s, view).Error?
  {
  }

  lemma ExecutesOn(s: Statement, view: Database, p: Phase)
    requires p.Copying? && OnTrack(s, view, p) && p.done == s.accesses.Keys
    ensures ExecuteStep(s, p) == var a := AnswerOn(s, view); if a.Error? then Rejected else Committing(a.result, a.writes)
  {
    assert Present(s, view);
    assert p.toRead == ReadCopies(s, view) && p.toWrite == WriteCopies(s, view);
  }

  lemma StartSees(s: Statement, db: Database)
    ensures Sees(s, db, db, Copying(map[], map[], {}))
  {
  }

  lemma {:induction false} RunsAlone(ss: seq<Statement>, w: World, i: nat, view: Database) returns (schedule: seq<Step>)
    requires |w.phases| == |ss| && i < |ss| && Sees(ss[i], view, w.db, w.phases[i])
    ensures var w' := Run(ss, w, schedule);
            var a := AnswerOn(ss[i], view);
            && OnlyMoved(w, w', i) && Told(w'.phases[i], a)
            && w'.db == if a.Error? then w.db else WriteBack(w.db, a.writes)
  {
    hide Run, AnswerOn, Sees;
    schedule := ExecutesAlone(ss, w, i, view);
    var w' := Run(ss, w, schedule);
    if w'.phases[i].Committing? {
      var rest := CommitsAlone(ss, w', i);
      RunConcat(ss, w, schedule, rest);
      schedule := schedule + rest;
    }
  }

  /** A serial order is a schedule. */
  lemma {:induction false} SerialSchedule(s: Statement, t: Statement, db: Database) returns (schedule: seq<Step>)
    ensures AllDone(RunBoth(s, t, db, schedule)) && FirstThenSecond(s, t, db, RunBoth(s, t, db, schedule))
  {
    hide Run, AnswerOn, Sees;
    var ss := [s, t];
    var w := Start(ss, db);
    StartSees(s, db);
    schedule := RunsAlone(ss, w, 0, db);
    var w1 := Run(ss, w, schedule);
    StartSees(t, w1.db);
    var rest := RunsAlone(ss, w1, 1, w1.db);
    RunConcat(ss, w, schedule, rest);
    schedule := schedule + rest;
  }

  // ---------- Statements that show what they saw ----------

  function Plus(t: Stored): Stored {
    t.(rows := t.rows + [[]])
  }

  /** The rows of some tables, from the copies taken. */
  function Seen(r: Database, w: Database, sees: seq<string>): seq<Row> {
    if sees == [] then []
    else (if sees[0] in w then w[sees[0]].rows else if sees[0] in r then r[sees[0]].rows else []) + Seen(r, w, sees[1..])
  }

  /** Answers with the rows of some tables, and appends a row to others; what it took for writing it writes back. */
  function Probe(a: Access, sees: seq<string>, adds: set<string>): Statement {
    Statement(a, (r: Database, w: Database) =>
                Answered(Table(Seen(r, w, sees)), map n | n in w && n in a && !a[n].Read? :: if n in adds then Plus(w[n]) else w[n]))
  }

  lemma ProbeWritesAll(a: Access, sees: seq<string>, adds: set<string>)
    ensures WritesAll(Probe(a, sees, adds))
  {
    hide Seen;
    var s := Probe(a, sees, adds);
    forall r: Database, w: Database | w.Keys <= WriteSet(s)
      ensures s.run(r, w).writes.Keys == w.Keys
    {
    }
  }

  function RowsOf(db: Database, sees: seq<string>): seq<Row> {
    if sees == [] then [] else (if sees[0] in db then db[sees[0]].rows else []) + RowsOf(db, sees[1..])
  }

  function Bumped(db: Database, names: set<string>): Database {
    map n | n in db :: if n in names then Plus(db[n]) else db[n]
  }

  predicate MayWrite(a: Access, names: set<string>) {
    forall n | n in names :: n in a && !a[n].Read?
  }

  lemma {:induction false} SeenRows(a: Access, db: Database, sees: seq<string>)
    requires forall n | n in sees :: n in a
    ensures Seen(ReadCopies(Probe(a, [], {}), db), WriteCopies(Probe(a, [], {}), db), sees) == RowsOf(db, sees)
    decreases |sees|
  {
    if sees != [] {
      SeenRows(a, db, sees[1..]);
    }
  }

  lemma ProbeAnswer(a: Access, sees: seq<string>, adds: set<string>, db: Database)
    requires a.Keys <= db.Keys && MayWrite(a, adds) && forall n | n in sees :: n in a
    ensures AnswerOn(Probe(a, sees, adds), db).Answered? && AnswerOn(Probe(a, sees, adds), db).result == Table(RowsOf(db, sees))
    ensures AfterStatement(Probe(a, sees, adds), db) == Bumped(db, adds)
  {
    hide Seen, RowsOf;
    var s := Probe(a, sees, adds);
    SeenRows(a, db, sees);
    assert ReadCopies(s, db) == ReadCopies(Probe(a, [], {}), db) && WriteCopies(s, db) == WriteCopies(Probe(a, [], {}), db);
    assert Present(s, db);
    assert WriteBack(db, s.run(ReadCopies(s, db), WriteCopies(s, db)).writes) == Bumped(db, adds);
  }

  /** The tables of both access sets, all empty. */
  function NoRows(a: Access, b: Access): Database {
    map n | n in a.Keys + b.Keys :: Stored([], [])
  }

  lemma RowsOfOne(db: Database, n: string)
    requires n in db
    ensures RowsOf(db, []) == [] && RowsOf(db, [n]) == db[n].rows
  {
    assert [n][1..] == [];
  }

  lemma RowsOfTwo(db: Database, m: string, n: string)
    requires m in db && n in db
    ensures RowsOf(db, [m, n]) == db[m].rows + db[n].rows
  {
    assert [m, n][1..] == [n];
    RowsOfOne(db, n);
  }

  // ---------- With a conflict, not every order ----------

  /** One writes what the other sees: the serial orders differ in the other's answer. */
  lemma OrdersDiffer(a: Access, b: Access, x: string) returns (s: Statement, t: Statement, db: Database, schedule: seq<Step>)
    requires x in a && x in b && (!a[x].Read? || !b[x].Read?)
    ensures Ends(a, b, s, t, db, schedule)
    ensures !(FirstThenSecond(s, t, db, RunBoth(s, t, db, schedule)) && SecondThenFirst(s, t, db, RunBoth(s, t, db, schedule)))
  {
    db := NoRows(a, b);
    var after := Bumped(db, {x});
    assert |db[x].rows| == 0 && |after[x].rows| == 1;
    RowsOfOne(db, x);
    RowsOfOne(after, x);
    hide Run, AfterStatement, AnswerOn, Probe, Bumped, NoRows, RowsOf, WritesAll, AllDone;
    if !a[x].Read? {
      s, t := Probe(a, [], {x}), Probe(b, [x], {});
      ProbeFacts(a, [], {x}, db);
      ProbeFacts(b, [x], {}, db);
      ProbeFacts(b, [x], {}, after);
    } else {
      s, t := Probe(a, [x], {}), Probe(b, [], {x});
      ProbeFacts(a, [x], {}, db);
      ProbeFacts(a, [x], {}, after);
      ProbeFacts(b, [], {x}, db);
    }
    schedule := SerialSchedule(s, t, db);
  }

  lemma ProbeFacts(a: Access, sees: seq<string>, adds: set<string>, db: Database)
    requires a.Keys <= db.Keys && MayWrite(a, adds) && forall n | n in sees :: n in a
    ensures var s := Probe(a, sees, adds);
            && s.accesses == a && WritesAll(s)
            && AnswerOn(s, db).Answered? && AnswerOn(s, db).result == Table(RowsOf(db, sees))
            && AfterStatement(s, db) == Bumped(db, adds)
  {
    ProbeWritesAll(a, sees, adds);
    ProbeAnswer(a, sees, adds, db);
  }

  /**
   Any two statements with these access sets give what they give in both serial orders, in every interleaving,
   exactly when the access sets do not conflict.
   */
  lemma BothOrdersIff(a: Access, b: Access)
    ensures AlwaysInBothOrders(a, b) <==> ConflictNames(a, b) == {}
  {
    hide RunBoth, FirstThenSecond, SecondThenFirst, AllDone, Confined;
    if ConflictNames(a, b) == {} {
      forall s, t, db, schedule | Ends(a, b, s, t, db, schedule)
        ensures FirstThenSecond(s, t, db, RunBoth(s, t, db, schedule)) && SecondThenFirst(s, t, db, RunBoth(s, t, db, schedule))
      {
        NoConflictBothOrders(s, t, db, schedule);
      }
    } else {
      var x :| x in ConflictNames(a, b);
      var s, t, db, schedule := OrdersDiffer(a, b, x);
    }
  }

  // ---------- Interleavings like no serial order ----------

  /** Two processes, each of which has executed or been rejected, come to their ends. */
  lemma {:induction false} BothFinish(ss: seq<Statement>, w: World, a: Answer, b: Answer) returns (schedule: seq<Step>)
    requires |ss| == |w.phases| == 2
    requires w.phases[0] == if a.Error? then Rejected else Committing(a.result, a.writes)
    requires w.phases[1] == if b.Error? then Rejected else Committing(b.result, b.writes)
    ensures var w' := Run(ss, w, schedule); Told(w'.phases[0], a) && Told(w'.phases[1], b)
  {
    hide Run;
    schedule := [];
    RunNothing(ss, w);
    var w' := w;
    if w.phases[0].Committing? {
      schedule := CommitsAlone(ss, w, 0);
      w' := Run(ss, w, schedule);
    }
    if w'.phases[1].Committing? {
      var rest := CommitsAlone(ss, w', 1);
      RunConcat(ss, w, schedule, rest);
      schedule := schedule + rest;
    }
  }

  lemma RunNothing(ss: seq<Statement>, w: World)
    requires |w.phases| == |ss|
    ensures Run(ss, w, []) == w
  {
  }

  /** Both copy everything before either writes: each answers on the first database. */
  lemma {:induction false} BothLookFirst(s: Statement, t: Statement, db: Database) returns (schedule: seq<Step>)
    ensures var w := RunBoth(s, t, db, schedule);
            AllDone(w) && Told(w.phases[0], AnswerOn(s, db)) && Told(w.phases[1], AnswerOn(t, db))
  {
    hide Run, AnswerOn, Sees;
    var ss := [s, t];
    var w := Start(ss, db);
    StartSees(s, db);
    StartSees(t, db);
    schedule := ExecutesAlone(ss, w, 0, db);
    var w1 := Run(ss, w, schedule);
    var rest := ExecutesAlone(ss, w1, 1, db);
    RunConcat(ss, w, schedule, rest);
    var w2 := Run(ss, w1, rest);
    var end := BothFinish(ss, w2, AnswerOn(s, db), AnswerOn(t, db));
    RunConcat(ss, w, schedule + rest, end);
    schedule := schedule + rest + end;
  }

  /** The table a process has copied before the other ran. */
  lemma CopiedEarly(t: Statement, db: Database, after: Database, x: string)
    requires x in t.accesses && t.accesses[x].Read? && x in db && after.Keys == db.Keys
    ensures Sees(t, after[x := db[x]], after, CopyInStep(t, db, Copying(map[], map[], {}), x))
  {
  }

  /** The reader `i` copies one table, the other runs from start to end, the reader goes on. */
  lemma {:induction false} LooksAround(ss: seq<Statement>, db: Database, i: nat, x: string) returns (schedule: seq<Step>)
    requires |ss| == 2 && i < 2 && x in ss[i].accesses && ss[i].accesses[x].Read? && x in db
    ensures var w := Run(ss, Start(ss, db), schedule);
            && AllDone(w)
            && Told(w.phases[1 - i], AnswerOn(ss[1 - i], db))
            && Told(w.phases[i], AnswerOn(ss[i], AfterStatement(ss[1 - i], db)[x := db[x]]))
  {
    hide Run, AnswerOn, Sees;
    var j := 1 - i;
    var w := Start(ss, db);
    var step := Step(i, CopyIn(x));
    RunOne(ss, w, step);
    var w1 := Run(ss, w, [step]);
    assert w1.phases[i] == CopyInStep(ss[i], db, Copying(map[], map[], {}), x) && w1.phases[j] == Copying(map[], map[], {}) && w1.db == db;
    StartSees(ss[j], db);
    var rest := RunsAlone(ss, w1, j, db);
    RunConcat(ss, w, [step], rest);
    var w2 := Run(ss, w1, rest);
    assert w2.db == AfterStatement(ss[j], db);
    CopiedEarly(ss[i], db, w2.db, x);
    var end := RunsAlone(ss, w2, i, w2.db[x := db[x]]);
    RunConcat(ss, w, [step] + rest, end);
    schedule := [step] + rest + end;
  }

  /** At most one name in conflict, written by one of the two only. */
  predicate OneWayConflict(a: Access, b: Access) {
    forall m, n | m in ConflictNames(a, b) && n in ConflictNames(a, b) :: m == n && (a[n].Read? || b[n].Read?)
  }

  /** Each writes what the other sees, and both look before either writes. */
  lemma NeitherSeesTheOther(a: Access, b: Access, x: string, y: string) returns (s: Statement, t: Statement, db: Database, schedule: seq<Step>)
    requires x in a && x in b && !a[x].Read? && y in a && y in b && !b[y].Read?
    ensures Ends(a, b, s, t, db, schedule)
    ensures !FirstThenSecond(s, t, db, RunBoth(s, t, db, schedule)) && !SecondThenFirst(s, t, db, RunBoth(s, t, db, schedule))
  {
    db := NoRows(a, b);
    var afterS, afterT := Bumped(db, {x}), Bumped(db, {y});
    assert |db[x].rows| == 0 && |db[y].rows| == 0 && |afterS[x].rows| == 1 && |afterT[y].rows| == 1;
    RowsOfOne(db, x);
    RowsOfOne(db, y);
    RowsOfOne(afterS, x);
    RowsOfOne(afterT, y);
    hide Run, AfterStatement, AnswerOn, Probe, Bumped, NoRows, RowsOf, WritesAll, AllDone;
    s, t := Probe(a, [y], {x}), Probe(b, [x], {y});
    ProbeFacts(a, [y], {x}, db);
    ProbeFacts(a, [y], {x}, afterT);
    ProbeFacts(b, [x], {y}, db);
    ProbeFacts(b, [x], {y}, afterS);
    schedule := BothLookFirst(s, t, db);
  }

  /** A reader of two tables answers differently before, between and after a writer of both. */
  predicate Torn(s: Statement, t: Statement, db: Database, x: string)
    requires x in db
  {
    var after := AfterStatement(s, db);
    var torn := AnswerOn(t, after[x := db[x]]);
    torn.Answered? && !SameResult(torn, AnswerOn(t, db)) && !SameResult(torn, AnswerOn(t, after))
  }

  predicate SameResult(a: Answer, b: Answer) {
    a.Answered? && b.Answered? && a.result == b.result
  }

  lemma TornProbes(a: Access, b: Access, db: Database, x: string, y: string)
    requires a.Keys <= db.Keys && b.Keys <= db.Keys && x in b && y in b && MayWrite(a, {x, y}) && x != y
    requires |db[x].rows| == |db[y].rows| == 0
    ensures Torn(Probe(a, [], {x, y}), Probe(b, [x, y], {}), db, x)
  {
    var after := Bumped(db, {x, y});
    var between := after[x := db[x]];
    RowsOfTwo(db, x, y);
    RowsOfTwo(after, x, y);
    RowsOfTwo(between, x, y);
    assert |RowsOf(db, [x, y])| == 0 && |RowsOf(between, [x, y])| == 1 && |RowsOf(after, [x, y])| == 2;
    hide AfterStatement, AnswerOn, Probe, Bumped, RowsOf, WritesAll;
    ProbeFacts(a, [], {x, y}, db);
    ProbeFacts(b, [x, y], {}, db);
    ProbeFacts(b, [x, y], {}, after);
    ProbeFacts(b, [x, y], {}, between);
  }

  lemma NoRowsFacts(a: Access, b: Access)
    ensures var db := NoRows(a, b); a.Keys <= db.Keys && b.Keys <= db.Keys && forall n | n in db :: db[n].rows == []
  {
  }

  lemma NotTold(p: Phase, torn: Answer, other: Answer)
    requires Told(p, torn) && torn.Answered? && !SameResult(torn, other)
    ensures !Told(p, other)
  {
  }

  /** The second reads two tables the first writes, one before and one after. */
  lemma SecondTorn(a: Access, b: Access, x: string, y: string) returns (s: Statement, t: Statement, db: Database, schedule: seq<Step>)
    requires x in a && x in b && y in a && y in b && x != y && !a[x].Read? && !a[y].Read? && b[x].Read?
    ensures Ends(a, b, s, t, db, schedule)
    ensures !FirstThenSecond(s, t, db, RunBoth(s, t, db, schedule)) && !SecondThenFirst(s, t, db, RunBoth(s, t, db, schedule))
  {
    hide Run, AfterStatement, AnswerOn, Bumped, NoRows, WritesAll, AllDone, Told, SameResult;
    s, t, db := Probe(a, [], {x, y}), Probe(b, [x, y], {}), NoRows(a, b);
    NoRowsFacts(a, b);
    ProbeWritesAll(a, [], {x, y});
    ProbeWritesAll(b, [x, y], {});
    TornProbes(a, b, db, x, y);
    schedule := LooksAround([s, t], db, 1, x);
    var q, after := RunBoth(s, t, db, schedule).phases[1], AfterStatement(s, db);
    NotTold(q, AnswerOn(t, after[x := db[x]]), AnswerOn(t, db));
    NotTold(q, AnswerOn(t, after[x := db[x]]), AnswerOn(t, after));
  }

  lemma FirstTorn(a: Access, b: Access, x: string, y: string) returns (s: Statement, t: Statement, db: Database, schedule: seq<Step>)
    requires x in a && x in b && y in a && y in b && x != y && !b[x].Read? && !b[y].Read? && a[x].Read?
    ensures Ends(a, b, s, t, db, schedule)
    ensures !FirstThenSecond(s, t, db, RunBoth(s, t, db, schedule)) && !SecondThenFirst(s, t, db, RunBoth(s, t, db, schedule))
  {
    hide Run, AfterStatement, AnswerOn, Bumped, NoRows, WritesAll, AllDone, Told, SameResult;
    s, t, db := Probe(a, [x, y], {}), Probe(b, [], {x, y}), NoRows(a, b);
    NoRowsFacts(a, b);
    ProbeWritesAll(a, [x, y], {});
    ProbeWritesAll(b, [], {x, y});
    TornProbes(b, a, db, x, y);
    schedule := LooksAround([s, t], db, 0, x);
    var p, after := RunBoth(s, t, db, schedule).phases[0], AfterStatement(t, db);
    NotTold(p, AnswerOn(s, after[x := db[x]]), AnswerOn(s, db));
    NotTold(p, AnswerOn(s, after[x := db[x]]), AnswerOn(s, after));
  }

  lemma NoOrder(a: Access, b: Access) returns (s: Statement, t: Statement, db: Database, schedule: seq<Step>)
    requires !OneWayConflict(a, b)
    ensures Ends(a, b, s, t, db, schedule)
    ensures !FirstThenSecond(s, t, db, RunBoth(s, t, db, schedule)) && !SecondThenFirst(s, t, db, RunBoth(s, t, db, schedule))
  {
    hide RunBoth, FirstThenSecond, SecondThenFirst, Ends;
    var m, n :| m in ConflictNames(a, b) && n in ConflictNames(a, b) && !(m == n && (a[n].Read? || b[n].Read?));
    if !a[m].Read? && !b[n].Read? {
      s, t, db, schedule := NeitherSeesTheOther(a, b, m, n);
    } else if !a[n].Read? && !b[m].Read? {
      s, t, db, schedule := NeitherSeesTheOther(a, b, n, m);
    } else if !a[m].Read? {
      s, t, db, schedule := SecondTorn(a, b, m, n);
    } else {
      s, t, db, schedule := FirstTorn(a, b, m, n);
    }
  }

  // ---------- A conflict one way, some order ----------

  /** Only `x` of what `s` may write is used by `t`, and nothing `t` may write is used by `s`. */
  ghost predicate WritesFor(s: Statement, t: Statement, x: string) {
    && Confined(s) && Confined(t)
    && WriteSet(t) !! s.accesses.Keys
    && forall n | n in WriteSet(s) && n in t.accesses :: n == x
  }

  /** Before any write, or after the first statement. */
  predicate IsBase(s: Statement, db: Database, base: Database) {
    base == db || base == AfterStatement(s, db)
  }

  /** A table holds what one of the two has written back, and otherwise what it held at first. */
  ghost predicate PairHolds(s: Statement, t: Statement, db: Database, base: Database, now: Database, p: Phase, q: Phase, n: string)
    requires n in db && n in now
  {
    var ws, wt := Written(s, db, p), Written(t, base, q);
    now[n] == if n in ws then ws[n] else if n in wt then wt[n] else db[n]
  }

  /** The writer runs as on the first tables, the reader as before or as after it. */
  ghost predicate PairInv(s: Statement, t: Statement, db: Database, base: Database, now: Database, p: Phase, q: Phase) {
    && now.Keys == db.Keys && IsBase(s, db, base)
    && OnTrack(s, db, p) && OnTrack(t, base, q)
    && forall n | n in db :: PairHolds(s, t, db, base, now, p, q, n)
  }

  lemma AfterKeeps(s: Statement, db: Database)
    requires Confined(s)
    ensures AfterStatement(s, db).Keys == db.Keys
    ensures forall n | n in db && n !in WriteSet(s) :: AfterStatement(s, db)[n] == db[n]
    ensures AnswerOn(s, db).Answered? ==> forall n | n in db && n in AnswerOn(s, db).writes :: AfterStatement(s, db)[n] == AnswerOn(s, db).writes[n]
  {
    hide AnswerOn, Confined;
    forall n | n in db && n !in WriteSet(s) && AnswerOn(s, db).Answered?
      ensures n !in AnswerOn(s, db).writes
    {
      if n in AnswerOn(s, db).writes {
        InWriteSet(s, db, n);
      }
    }
  }

  lemma BaseKeeps(s: Statement, t: Statement, x: string, db: Database, base: Database)
    requires WritesFor(s, t, x) && IsBase(s, db, base)
    ensures base.Keys == db.Keys && forall n | n in db && n in t.accesses && n != x :: base[n] == db[n]
  {
    hide AfterStatement, Confined;
    AfterKeeps(s, db);
  }

  /** As long as it has not copied `x`, the reader may still turn out to run before or after. */
  lemma Undecided(s: Statement, t: Statement, x: string, db: Database, base: Database, other: Database, q: Phase)
    requires WritesFor(s, t, x) && IsBase(s, db, base) && IsBase(s, db, other)
    requires q.Copying? && x !in q.done && OnTrack(t, base, q)
    ensures OnTrack(t, other, q)
  {
    hide WritesFor, IsBase, AnswerOn;
    BaseKeeps(s, t, x, db, base);
    BaseKeeps(s, t, x, db, other);
  }

  lemma WritesApartOf(s: Statement, t: Statement, x: string, db: Database, base: Database, p: Phase, q: Phase)
    requires WritesFor(s, t, x)
    ensures forall n | n in Written(t, base, q) :: n !in s.accesses && n !in Written(s, db, p)
    ensures forall n | n in Written(s, db, p) :: n in WriteSet(s)
  {
    hide Written, Confined;
    WrittenInWriteSet(s, db, p);
    WrittenInWriteSet(t, base, q);
  }

  /** One more table written back, or none. */
  lemma PairHoldsNext(s: Statement, t: Statement, db: Database, base: Database, now: Database, p: Phase, q: Phase,
                      now': Database, p': Phase, q': Phase, n: string)
    requires n in db && n in now && n in now' && PairHolds(s, t, db, base, now, p, q, n)
    requires var a, b, c, d := Written(s, db, p), Written(t, base, q), Written(s, db, p'), Written(t, base, q');
             || (now'[n] == now[n] && (n in a <==> n in c) && (n in b <==> n in d) && (n in a ==> a[n] == c[n]) && (n in b ==> b[n] == d[n]))
             || (n in c && now'[n] == c[n])
             || (n !in c && n in d && now'[n] == d[n])
    ensures PairHolds(s, t, db, base, now', p', q', n)
  {
    hide Written;
  }

  lemma WriterStep(s: Statement, t: Statement, x: string, db: Database, base: Database, now: Database, p: Phase, q: Phase, a: Action)
    requires WritesFor(s, t, x) && PairInv(s, t, db, base, now, p, q)
    ensures PairInv(s, t, db, base, NextDb(now, p, a), NextPhase(s, now, p, a), q)
  {
    hide AnswerOn, IsBase, OnTrack, Written, PairHolds;
    var p', now' := NextPhase(s, now, p, a), NextDb(now, p, a);
    WriterOnTrack(s, t, x, db, base, now, p, q, a);
    StepWrites(s, db, now, p, a);
    hide NextPhase;
    forall n | n in db
      ensures PairHolds(s, t, db, base, now', p', q, n)
    {
      PairHoldsNext(s, t, db, base, now, p, q, now', p', q, n);
    }
  }

  lemma WriterOnTrack(s: Statement, t: Statement, x: string, db: Database, base: Database, now: Database, p: Phase, q: Phase, a: Action)
    requires WritesFor(s, t, x) && PairInv(s, t, db, base, now, p, q)
    ensures OnTrack(s, db, NextPhase(s, now, p, a))
  {
    if p.Copying? && a.CopyIn? {
      if a.name in s.accesses && a.name in db {
        WritesApartOf(s, t, x, db, base, p, q);
        assert PairHolds(s, t, db, base, now, p, q, a.name);
      }
      CopyInOnTrack(s, db, now, p, a.name);
    } else if p.Copying? && a.Execute? {
      ExecuteOnTrack(s, db, p);
    }
  }

  /** The base once this step is taken: copying `x` settles it. */
  function NextBase(s: Statement, t: Statement, db: Database, base: Database, x: string, p: Phase, q: Phase, a: Action): Database {
    if q.Copying? && a == CopyIn(x) && x in t.accesses && x !in q.done && x in db then
      if x in Written(s, db, p) then AfterStatement(s, db) else db
    else base
  }

  /** With that base the reader is on track before the step, and after. */
  lemma ReaderOnTrack(s: Statement, t: Statement, x: string, db: Database, base: Database, now: Database, p: Phase, q: Phase, a: Action)
    requires WritesFor(s, t, x) && PairInv(s, t, db, base, now, p, q)
    ensures var b := NextBase(s, t, db, base, x, p, q, a);
            IsBase(s, db, b) && OnTrack(t, b, q) && OnTrack(t, b, NextPhase(t, now, q, a)) && Written(t, b, q) == Written(t, base, q)
  {
    hide WritesFor, IsBase, Written, AnswerOn, AfterStatement, PairHolds, OnTrack, NextPhase;
    if q.Copying? && a.CopyIn? && a.name in t.accesses && a.name !in q.done {
      ReaderCopies(s, t, x, db, base, now, p, q, a.name);
      NextCopies(t, now, q, a.name);
    } else {
      OtherSteps(t, base, now, q, a);
    }
  }

  lemma NextCopies(t: Statement, now: Database, q: Phase, n: string)
    requires q.Copying?
    ensures NextPhase(t, now, q, CopyIn(n)) == CopyInStep(t, now, q, n)
  {
  }

  /** A step that copies nothing in. */
  lemma OtherSteps(t: Statement, base: Database, now: Database, q: Phase, a: Action)
    requires OnTrack(t, base, q) && !(q.Copying? && a.CopyIn? && a.name in t.accesses && a.name !in q.done)
    ensures OnTrack(t, base, NextPhase(t, now, q, a))
  {
    hide AnswerOn;
    if q.Copying? && a.Execute? {
      ExecuteOnTrack(t, base, q);
    }
  }

  lemma ReaderCopies(s: Statement, t: Statement, x: string, db: Database, base: Database, now: Database, p: Phase, q: Phase, n: string)
    requires WritesFor(s, t, x) && PairInv(s, t, db, base, now, p, q) && q.Copying? && n in t.accesses && n !in q.done
    ensures var b := NextBase(s, t, db, base, x, p, q, CopyIn(n));
            IsBase(s, db, b) && OnTrack(t, b, q) && OnTrack(t, b, CopyInStep(t, now, q, n)) && Written(t, b, q) == Written(t, base, q)
  {
    var b := NextBase(s, t, db, base, x, p, q, CopyIn(n));
    NothingWritten(t, b, q);
    NothingWritten(t, base, q);
    hide WritesFor, Written, AnswerOn, OnTrack, PairHolds, IsBase, AfterStatement;
    CopiesBase(s, t, x, db, base, now, p, q, n);
    BaseKeeps(s, t, x, db, b);
    if n == x && x in db {
      Undecided(s, t, x, db, base, b, q);
    }
    CopyInOnTrack(t, b, now, q, n);
  }

  lemma NothingWritten(t: Statement, b: Database, q: Phase)
    requires q.Copying?
    ensures Written(t, b, q) == map[]
  {
  }

  lemma CopiesBase(s: Statement, t: Statement, x: string, db: Database, base: Database, now: Database, p: Phase, q: Phase, n: string)
    requires WritesFor(s, t, x) && PairInv(s, t, db, base, now, p, q) && q.Copying? && n in t.accesses && n !in q.done
    ensures var b := NextBase(s, t, db, base, x, p, q, CopyIn(n));
            IsBase(s, db, b) && (n in db ==> n in b && now[n] == b[n])
  {
    if n in db {
      assert PairHolds(s, t, db, base, now, p, q, n);
      AfterKeeps(s, db);
      WritesApartOf(s, t, x, db, base, p, q);
      BaseKeeps(s, t, x, db, base);
    }
  }

  lemma ReaderStep(s: Statement, t: Statement, x: string, db: Database, base: Database, now: Database, p: Phase, q: Phase, a: Action)
    requires WritesFor(s, t, x) && PairInv(s, t, db, base, now, p, q)
    ensures PairInv(s, t, db, NextBase(s, t, db, base, x, p, q, a), NextDb(now, q, a), p, NextPhase(t, now, q, a))
  {
    hide AnswerOn, IsBase, OnTrack, Written, PairHolds, NextBase;
    var b := NextBase(s, t, db, base, x, p, q, a);
    var q', now' := NextPhase(t, now, q, a), NextDb(now, q, a);
    ReaderOnTrack(s, t, x, db, base, now, p, q, a);
    StepWrites(t, b, now, q, a);
    WritesApartOf(s, t, x, db, b, p, q');
    hide NextPhase;
    forall n | n in db
      ensures PairHolds(s, t, db, b, now', p, q', n)
    {
      SameWritten(s, t, db, base, b, now, p, q, n);
      PairHoldsNext(s, t, db, b, now, p, q, now', p, q', n);
    }
  }

  lemma SameWritten(s: Statement, t: Statement, db: Database, base: Database, b: Database, now: Database, p: Phase, q: Phase, n: string)
    requires n in db && n in now && PairHolds(s, t, db, base, now, p, q, n) && Written(t, b, q) == Written(t, base, q)
    ensures PairHolds(s, t, db, b, now, p, q, n)
  {
    hide Written;
  }

  /** Every schedule keeps the writer `i` and the reader on track for one of the two bases. */
  lemma {:induction false} PairRun(ss: seq<Statement>, i: nat, x: string, db: Database, schedule: seq<Step>) returns (base: Database)
    requires |ss| == 2 && i < 2 && WritesFor(ss[i], ss[1 - i], x)
    ensures var w := Run(ss, Start(ss, db), schedule);
            PairInv(ss[i], ss[1 - i], db, base, w.db, w.phases[i], w.phases[1 - i])
    decreases |schedule|
  {
    hide PairInv, NextPhase, NextDb, WritesFor, NextBase;
    if schedule == [] {
      PairStart(ss[i], ss[1 - i], db);
      base := db;
    } else {
      var n := |schedule| - 1;
      base := PairRun(ss, i, x, db, schedule[..n]);
      var w := Run(ss, Start(ss, db), schedule[..n]);
      var step := schedule[n];
      if step.process == i {
        WriterStep(ss[i], ss[1 - i], x, db, base, w.db, w.phases[i], w.phases[1 - i], step.action);
      } else if step.process < 2 {
        ReaderStep(ss[i], ss[1 - i], x, db, base, w.db, w.phases[i], w.phases[1 - i], step.action);
        base := NextBase(ss[i], ss[1 - i], db, base, x, w.phases[i], w.phases[1 - i], step.action);
      }
    }
  }

  lemma PairStart(s: Statement, t: Statement, db: Database)
    ensures PairInv(s, t, db, db, db, Copying(map[], map[], {}), Copying(map[], map[], {}))
  {
  }

  lemma DoneTold(s: Statement, db: Database, p: Phase)
    requires Done(p) && OnTrack(s, db, p)
    ensures Told(p, AnswerOn(s, db))
    ensures Written(s, db, p) == if AnswerOn(s, db).Error? then map[] else AnswerOn(s, db).writes
  {
    hide AnswerOn;
  }

  /** What both came to is what one of the orders gives. */
  lemma PairEnds(s: Statement, t: Statement, x: string, db: Database, base: Database, now: Database, p: Phase, q: Phase)
    requires WritesFor(s, t, x) && PairInv(s, t, db, base, now, p, q) && Done(p) && Done(q)
    ensures InOrder(s, t, db, now, p, q) || InOrder(t, s, db, now, q, p)
  {
    hide AnswerOn;
    DoneTold(s, db, p);
    DoneTold(t, base, q);
    WritesApartOf(s, t, x, db, base, p, q);
    hide OnTrack, Written, Confined;
    AfterKeeps(s, db);
    if base == AfterStatement(s, db) {
      forall n | n in db
        ensures now[n] == AfterStatement(t, base)[n]
      {
        assert PairHolds(s, t, db, base, now, p, q, n);
      }
      assert now == AfterStatement(t, base);
    } else {
      ReaderFirst(s, t, x, db, now, p, q);
    }
  }

  lemma ReaderFirst(s: Statement, t: Statement, x: string, db: Database, now: Database, p: Phase, q: Phase)
    requires WritesFor(s, t, x) && PairInv(s, t, db, db, now, p, q) && Done(p) && Done(q)
    ensures now == AfterStatement(s, AfterStatement(t, db)) && AnswerOn(s, AfterStatement(t, db)) == AnswerOn(s, db)
  {
    hide AnswerOn;
    DoneTold(s, db, p);
    DoneTold(t, db, q);
    hide OnTrack, Written, Confined, Done;
    var first := AfterStatement(t, db);
    AfterKeeps(t, db);
    SameTablesSameAnswer(s, db, first);
    forall n | n in db
      ensures now[n] == AfterStatement(s, first)[n]
    {
      assert PairHolds(s, t, db, db, now, p, q, n);
    }
  }

  /** Which of the two writes the name in conflict, if there is one. */
  lemma OneWayWriter(s: Statement, t: Statement) returns (first: bool, x: string)
    requires OneWayConflict(s.accesses, t.accesses) && Confined(s) && Confined(t)
    ensures if first then WritesFor(s, t, x) else WritesFor(t, s, x)
  {
    hide Confined;
    var names := ConflictNames(s.accesses, t.accesses);
    assert forall n | n in WriteSet(s) && n in t.accesses :: n in names;
    assert forall n | n in WriteSet(t) && n in s.accesses :: n in names;
    first, x := true, "";
    if n :| n in names {
      first, x := !s.accesses[n].Read?, n;
    }
  }

  lemma OneWaySomeOrder(s: Statement, t: Statement, db: Database, schedule: seq<Step>)
    requires OneWayConflict(s.accesses, t.accesses) && Confined(s) && Confined(t) && AllDone(RunBoth(s, t, db, schedule))
    ensures FirstThenSecond(s, t, db, RunBoth(s, t, db, schedule)) || SecondThenFirst(s, t, db, RunBoth(s, t, db, schedule))
  {
    hide Run, AfterStatement, AnswerOn, Confined, OneWayConflict, PairInv, InOrder, WritesFor;
    var ss := [s, t];
    var w := Run(ss, Start(ss, db), schedule);
    var first, x := OneWayWriter(s, t);
    if first {
      var base := PairRun(ss, 0, x, db, schedule);
      PairEnds(s, t, x, db, base, w.db, w.phases[0], w.phases[1]);
    } else {
      var base := PairRun(ss, 1, x, db, schedule);
      PairEnds(t, s, x, db, base, w.db, w.phases[1], w.phases[0]);
    }
  }

  /**
   Any two statements with these access sets give what they give in some serial order, in every interleaving,
   exactly when they conflict on at most one name and only one of them may write it.
   */
  lemma SomeOrderIff(a: Access, b: Access)
    ensures AlwaysInSomeOrder(a, b) <==> OneWayConflict(a, b)
  {
    hide RunBoth, FirstThenSecond, SecondThenFirst, AllDone, Confined, OneWayConflict;
    if OneWayConflict(a, b) {
      forall s, t, db, schedule | Ends(a, b, s, t, db, schedule)
        ensures FirstThenSecond(s, t, db, RunBoth(s, t, db, schedule)) || SecondThenFirst(s, t, db, RunBoth(s, t, db, schedule))
      {
        OneWaySomeOrder(s, t, db, schedule);
      }
    } else {
      var s, t, db, schedule := NoOrder(a, b);
    }
  }
}

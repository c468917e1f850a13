/**
 How statements share tables (`concurrent_catalog.rs`, `async_executor.rs`): a statement copies the
 tables of its access set one at a time, runs on the copies, and writes the changed ones back one at
 a time.  No lock is held in between, so the steps of several statements interleave.
 */
module TableProtocol {
  import opened Wrappers
  import opened Ir
  import opened Tables

  datatype AccessType = Read | Write | WriteOptional

  /** A stored table: its columns and its rows. */
  datatype Stored = Stored(fields: PlanSchema, rows: seq<Row>)

  type Database = map<string, Stored>

  /** How running on private copies ends: with an error, or with a result and the copies it changed. */
  datatype Answer = Error | Answered(result: TableResult, writes: Database)

  /** `run` sees the copies taken for reading and those taken for writing, and nothing else. */
  datatype Statement = Statement(accesses: map<string, AccessType>, run: (Database, Database) -> Answer)

  /** The names a statement may write. */
  function WriteSet(s: Statement): set<string> {
    set n | n in s.accesses && !s.accesses[n].Read?
  }

  /** A statement changes only copies it took for writing. */
  ghost predicate Confined(s: Statement) {
    forall r, w :: s.run(r, w).Answered? ==> s.run(r, w).writes.Keys <= WriteSet(s)
  }

  // ---------- One statement alone ----------

  /** Every table that must be there is there. */
  predicate Present(s: Statement, db: Database) {
    forall n | n in s.accesses && !s.accesses[n].WriteOptional? :: n in db
  }

  function ReadCopies(s: Statement, db: Database): Database {
    map n | n in s.accesses && n in db && s.accesses[n].Read? :: db[n]
  }

  function WriteCopies(s: Statement, db: Database): Database {
    map n | n in s.accesses && n in db && !s.accesses[n].Read? :: db[n]
  }

  function AnswerOn(s: Statement, db: Database): Answer {
    if Present(s, db) then s.run(ReadCopies(s, db), WriteCopies(s, db)) else Error
  }

  /** Writing back replaces tables that exist and drops the rest. */
  function WriteBack(db: Database, writes: Database): Database {
    map n | n in db :: if n in writes then writes[n] else db[n]
  }

  function AfterStatement(s: Statement, db: Database): Database {
    var a := AnswerOn(s, db);
    if a.Error? then db else WriteBack(db, a.writes)
  }

  // ---------- Interleaved steps ----------

  /** Copying in, writing back, or done: `toRead` and `toWrite` hold the copies, `pending` what is still to be written. */
  datatype Phase =
    | Copying(toRead: Database, toWrite: Database, done: set<string>)
    | Committing(result: TableResult, pending: Database)
    | Finished(result: TableResult)
    | Rejected

  datatype World = World(db: Database, phases: seq<Phase>)

  datatype Action = CopyIn(name: string) | Execute | CopyOut(name: string) | Finish

  datatype Step = Step(process: nat, action: Action)

  function CopyInStep(s: Statement, db: Database, p: Phase, n: string): Phase
    requires p.Copying?
  {
    if n !in s.accesses || n in p.done then p
    else if n !in db then (if s.accesses[n].WriteOptional? then p.(done := p.done + {n}) else Rejected)
    else if s.accesses[n].Read? then p.(toRead := p.toRead[n := db[n]], done := p.done + {n})
    else p.(toWrite := p.toWrite[n := db[n]], done := p.done + {n})
  }

  function ExecuteStep(s: Statement, p: Phase): Phase
    requires p.Copying?
  {
    if p.done != s.accesses.Keys then p
    else
      var a := s.run(p.toRead, p.toWrite);
      if a.Error? then Rejected else Committing(a.result, a.writes)
  }

  /** One step of one process; a step that is not possible changes nothing. */
  function NextPhase(s: Statement, db: Database, p: Phase, a: Action): Phase {
    if p.Copying? && a.CopyIn? then CopyInStep(s, db, p, a.name)
    else if p.Copying? && a.Execute? then ExecuteStep(s, p)
    else if p.Committing? && a.CopyOut? then p.(pending := p.pending - {a.name})
    else if p.Committing? && a.Finish? && p.pending == map[] then Finished(p.result)
    else p
  }

  function NextDb(db: Database, p: Phase, a: Action): Database {
    if p.Committing? && a.CopyOut? && a.name in p.pending && a.name in db then db[a.name := p.pending[a.name]] else db
  }

  function Next(ss: seq<Statement>, w: World, step: Step): World
    requires |w.phases| == |ss|
  {
    if step.process >= |ss| then w
    else
      var p := w.phases[step.process];
      World(NextDb(w.db, p, step.action), w.phases[step.process := NextPhase(ss[step.process], w.db, p, step.action)])
  }

  function Start(ss: seq<Statement>, db: Database): (w: World)
    ensures |w.phases| == |ss|
  {
    World(db, seq(|ss|, i => Copying(map[], map[], {})))
  }

  function Run(ss: seq<Statement>, w: World, schedule: seq<Step>): (r: World)
    requires |w.phases| == |ss|
    ensures |r.phases| == |ss|
    decreases |schedule|
  {
    if schedule == [] then w else Next(ss, Run(ss, w, schedule[..|schedule| - 1]), schedule[|schedule| - 1])
  }

  predicate Done(p: Phase) {
    p.Finished? || p.Rejected?
  }

  predicate AllDone(w: World) {
    forall i | 0 <= i < |w.phases| :: Done(w.phases[i])
  }

  // ---------- Serial execution ----------

  predicate InBounds(order: seq<nat>, count: nat) {
    forall k | 0 <= k < |order| :: order[k] < count
  }

  /** The database after running the statements one after another in the given order. */
  function Serial(ss: seq<Statement>, order: seq<nat>, db: Database): Database
    requires InBounds(order, |ss|)
    decreases |order|
  {
    if order == [] then db
    else
      var n := |order| - 1;
      AfterStatement(ss[order[n]], Serial(ss, order[..n], db))
  }

  // ---------- Names and failures, whatever the conflicts ----------

  /** No schedule of any statements adds or removes a table name. */
  lemma {:induction false} NamesNeverChange(ss: seq<Statement>, w: World, schedule: seq<Step>)
    requires |w.phases| == |ss|
    ensures Run(ss, w, schedule).db.Keys == w.db.Keys
    decreases |schedule|
  {
    if schedule != [] {
      NamesNeverChange(ss, w, schedule[..|schedule| - 1]);
    }
  }

  /** A phase in which nothing has been written back, and nothing is waiting to be. */
  predicate Unwritten(p: Phase) {
    p.Copying? || p.Rejected?
  }

  lemma {:induction false} RejectedNeverWrote(ss: seq<Statement>, db: Database, schedule: seq<Step>, i: nat, k: nat)
    requires i < |ss| && k <= |schedule| && Run(ss, Start(ss, db), schedule).phases[i].Rejected?
    ensures Unwritten(Run(ss, Start(ss, db), schedule[..k]).phases[i])
    decreases |schedule| - k
  {
    if k < |schedule| {
      RejectedNeverWrote(ss, db, schedule, i, k + 1);
      assert schedule[..k + 1][..k] == schedule[..k];
    } else {
      assert schedule[..k] == schedule;
    }
  }

  /** A statement that fails has changed no table with any of its steps, whoever else is running. */
  lemma {:induction false} FailureChangesNothing(ss: seq<Statement>, db: Database, schedule: seq<Step>, i: nat, k: nat)
    requires i < |ss| && k < |schedule| && schedule[k].process == i
    requires Run(ss, Start(ss, db), schedule).phases[i].Rejected?
    ensures Run(ss, Start(ss, db), schedule[..k + 1]).db == Run(ss, Start(ss, db), schedule[..k]).db
  {
    RejectedNeverWrote(ss, db, schedule, i, k);
    assert schedule[..k + 1][..k] == schedule[..k];
  }

  // ---------- Statements that do not conflict ----------

  /** No statement may write a table another one uses. */
  ghost predicate NonConflicting(ss: seq<Statement>) {
    forall i, j | 0 <= i < |ss| && 0 <= j < |ss| && i != j :: WriteSet(ss[i]) !! ss[j].accesses.Keys
  }

  ghost predicate AllConfined(ss: seq<Statement>) {
    forall i | 0 <= i < |ss| :: Confined(ss[i])
  }

  /** The tables a phase has written back so far, given what the statement does on the first database. */
  function Written(s: Statement, db: Database, p: Phase): Database {
    var a := AnswerOn(s, db);
    if a.Error? || p.Copying? || p.Rejected? then map[]
    else if p.Committing? then map n | n in a.writes && n !in p.pending :: a.writes[n]
    else a.writes
  }

  /** A table holds what some statement wrote back, and otherwise what it held at first. */
  ghost predicate HoldsWritten(ss: seq<Statement>, db: Database, w: World, n: string)
    requires |w.phases| == |ss| && n in db && n in w.db
  {
    && (forall i | 0 <= i < |ss| && n in Written(ss[i], db, w.phases[i]) :: w.db[n] == Written(ss[i], db, w.phases[i])[n])
    && ((forall i | 0 <= i < |ss| :: n !in Written(ss[i], db, w.phases[i])) ==> w.db[n] == db[n])
  }

  /** What a process has in hand agrees with running its statement alone on the first database. */
  ghost predicate OnTrack(s: Statement, db: Database, p: Phase) {
    match p
    case Copying(toRead, toWrite, done) =>
      && done <= s.accesses.Keys
      && (forall n | n in done && !s.accesses[n].WriteOptional? :: n in db)
      && toRead == (map n | n in done && n in db && s.accesses[n].Read? :: db[n])
      && toWrite == (map n | n in done && n in db && !s.accesses[n].Read? :: db[n])
    case Committing(result, pending) =>
      var a := AnswerOn(s, db);
      a.Answered? && a.result == result && (forall n | n in pending :: n in a.writes && a.writes[n] == pending[n])
    case Finished(result) => AnswerOn(s, db).Answered? && AnswerOn(s, db).result == result
    case Rejected => AnswerOn(s, db).Error?
  }

  ghost predicate Inv(ss: seq<Statement>, db: Database, w: World) {
    && |w.phases| == |ss|
    && w.db.Keys == db.Keys
    && (forall n | n in db :: HoldsWritten(ss, db, w, n))
    && (forall i | 0 <= i < |ss| :: OnTrack(ss[i], db, w.phases[i]))
  }

  lemma WrittenInWriteSet(s: Statement, db: Database, p: Phase)
    requires Confined(s)
    ensures Written(s, db, p).Keys <= WriteSet(s)
  {
  }

  /** While a statement is still copying, the tables it uses hold what they held at first. */
  lemma StillFirst(ss: seq<Statement>, db: Database, w: World, i: nat, n: string)
    requires NonConflicting(ss) && AllConfined(ss) && Inv(ss, db, w)
    requires i < |ss| && w.phases[i].Copying? && n in ss[i].accesses && n in db
    ensures w.db[n] == db[n]
  {
    hide OnTrack, Confined, AnswerOn;
    forall j | 0 <= j < |ss|
      ensures n !in Written(ss[j], db, w.phases[j])
    {
      if j != i {
        assert Confined(ss[j]);
        WrittenInWriteSet(ss[j], db, w.phases[j]);
        hide Written;
        assert WriteSet(ss[j]) !! ss[i].accesses.Keys;
      }
    }
    assert HoldsWritten(ss, db, w, n);
  }

  lemma CopyInOnTrack(s: Statement, db: Database, now: Database, p: Phase, n: string)
    requires p.Copying? && OnTrack(s, db, p) && now.Keys == db.Keys
    requires n in s.accesses && n in db ==> now[n] == db[n]
    ensures OnTrack(s, db, CopyInStep(s, now, p, n))
  {
    var q := CopyInStep(s, now, p, n);
    if q.Rejected? {
      assert !Present(s, db);
    }
  }

  lemma ExecuteOnTrack(s: Statement, db: Database, p: Phase)
    requires p.Copying? && OnTrack(s, db, p)
    ensures OnTrack(s, db, ExecuteStep(s, p))
    ensures Written(s, db, ExecuteStep(s, p)) == map[]
  {
    if p.done == s.accesses.Keys {
      assert Present(s, db);
      assert p.toRead == ReadCopies(s, db);
      assert p.toWrite == WriteCopies(s, db);
    }
  }

  /** What one step adds to what its process has written. */
  lemma StepWrites(s: Statement, db: Database, now: Database, p: Phase, a: Action)
    requires OnTrack(s, db, p) && OnTrack(s, db, NextPhase(s, now, p, a))
    ensures var before, after := Written(s, db, p), Written(s, db, NextPhase(s, now, p, a));
            if p.Committing? && a.CopyOut? && a.name in p.pending then
              after == before[a.name := p.pending[a.name]]
            else after == before
  {
    if p.Copying? && a.Execute? {
      ExecuteOnTrack(s, db, p);
    } else if p.Committing? && a.CopyOut? && a.name in p.pending {
      var q := NextPhase(s, now, p, a);
      assert Written(s, db, q) == Written(s, db, p)[a.name := p.pending[a.name]];
    } else if p.Committing? && a.CopyOut? {
      assert p.pending - {a.name} == p.pending;
    }
  }

  lemma PhaseOnTrack(ss: seq<Statement>, db: Database, w: World, i: nat, a: Action)
    requires NonConflicting(ss) && AllConfined(ss) && Inv(ss, db, w) && i < |ss|
    ensures OnTrack(ss[i], db, NextPhase(ss[i], w.db, w.phases[i], a))
  {
    hide AnswerOn, Confined, HoldsWritten, NonConflicting, Written;
    var p := w.phases[i];
    assert OnTrack(ss[i], db, p);
    if p.Copying? && a.CopyIn? {
      if a.name in ss[i].accesses && a.name in db {
        StillFirst(ss, db, w, i, a.name);
      }
      CopyInOnTrack(ss[i], db, w.db, p, a.name);
    } else if p.Copying? && a.Execute? {
      ExecuteOnTrack(ss[i], db, p);
    }
  }

  /** Only one statement may have written a table. */
  lemma OneWriter(ss: seq<Statement>, db: Database, w: World, i: nat, j: nat, n: string)
    requires NonConflicting(ss) && AllConfined(ss) && Inv(ss, db, w)
    requires i < |ss| && j < |ss| && i != j && n in WriteSet(ss[i])
    ensures n !in Written(ss[j], db, w.phases[j])
  {
    hide OnTrack, Confined, AnswerOn, HoldsWritten;
    assert Confined(ss[j]);
    WrittenInWriteSet(ss[j], db, w.phases[j]);
    hide Written;
    assert WriteSet(ss[j]) !! ss[i].accesses.Keys;
  }

  /** The step that writes a table back. */
  lemma WriteHolds(ss: seq<Statement>, db: Database, w: World, w': World, i: nat, n: string)
    requires NonConflicting(ss) && AllConfined(ss) && Inv(ss, db, w) && i < |ss| && n in db && n in WriteSet(ss[i])
    requires |w'.phases| == |ss| && n in w'.db && forall j | 0 <= j < |ss| && j != i :: w'.phases[j] == w.phases[j]
    requires n in Written(ss[i], db, w'.phases[i]) && w'.db[n] == Written(ss[i], db, w'.phases[i])[n]
    ensures HoldsWritten(ss, db, w', n)
  {
    hide Written, OnTrack, Confined, AnswerOn, NonConflicting, AllConfined;
    forall j | 0 <= j < |ss| && n in Written(ss[j], db, w'.phases[j])
      ensures w'.db[n] == Written(ss[j], db, w'.phases[j])[n]
    {
      if j != i {
        OneWriter(ss, db, w, i, j, n);
      }
    }
  }

  /** Any other step, as far as this table goes. */
  lemma OthersHold(ss: seq<Statement>, db: Database, w: World, w': World, i: nat, n: string)
    requires |w.phases| == |w'.phases| == |ss| && i < |ss| && n in db && n in w.db && n in w'.db && HoldsWritten(ss, db, w, n)
    requires w'.db[n] == w.db[n] && forall j | 0 <= j < |ss| && j != i :: w'.phases[j] == w.phases[j]
    requires var before, after := Written(ss[i], db, w.phases[i]), Written(ss[i], db, w'.phases[i]);
             (n in before <==> n in after) && (n in before ==> before[n] == after[n])
    ensures HoldsWritten(ss, db, w', n)
  {
    hide Written;
    forall j | 0 <= j < |ss|
      ensures n in Written(ss[j], db, w'.phases[j]) <==> n in Written(ss[j], db, w.phases[j])
      ensures n in Written(ss[j], db, w.phases[j]) ==> Written(ss[j], db, w'.phases[j])[n] == Written(ss[j], db, w.phases[j])[n]
    {
    }
  }

  lemma PendingInWriteSet(s: Statement, db: Database, p: Phase, n: string)
    requires Confined(s) && OnTrack(s, db, p) && p.Committing? && n in p.pending
    ensures n in WriteSet(s)
  {
    InWriteSet(s, db, n);
  }

  lemma StepHolds(ss: seq<Statement>, db: Database, w: World, step: Step, n: string)
    requires NonConflicting(ss) && AllConfined(ss) && Inv(ss, db, w) && step.process < |ss| && n in db
    ensures var w' := Next(ss, w, step); n in w'.db && HoldsWritten(ss, db, w', n)
  {
    hide Written, OnTrack, Confined, AnswerOn, NextPhase, NonConflicting, HoldsWritten;
    var i, a := step.process, step.action;
    var p := w.phases[i];
    var w' := Next(ss, w, step);
    PhaseOnTrack(ss, db, w, i, a);
    assert OnTrack(ss[i], db, p) && HoldsWritten(ss, db, w, n);
    StepWrites(ss[i], db, w.db, p, a);
    if p.Committing? && a.CopyOut? && a.name in p.pending && a.name == n {
      assert Confined(ss[i]);
      PendingInWriteSet(ss[i], db, p, n);
      WriteHolds(ss, db, w, w', i, n);
    } else {
      OthersHold(ss, db, w, w', i, n);
    }
  }

  lemma InWriteSet(s: Statement, db: Database, n: string)
    requires Confined(s) && AnswerOn(s, db).Answered? && n in AnswerOn(s, db).writes
    ensures n in WriteSet(s)
  {
  }

  lemma StepKeepsInv(ss: seq<Statement>, db: Database, w: World, step: Step)
    requires NonConflicting(ss) && AllConfined(ss) && Inv(ss, db, w)
    ensures Inv(ss, db, Next(ss, w, step))
  {
    hide OnTrack, HoldsWritten, Confined, NonConflicting;
    if step.process < |ss| {
      var w' := Next(ss, w, step);
      forall n | n in db
        ensures n in w'.db && HoldsWritten(ss, db, w', n)
      {
        StepHolds(ss, db, w, step, n);
      }
      PhaseOnTrack(ss, db, w, step.process, step.action);
    }
  }

  /** Every schedule of non-conflicting statements keeps each of them on track. */
  lemma {:induction false} RunKeepsInv(ss: seq<Statement>, db: Database, schedule: seq<Step>)
    requires NonConflicting(ss) && AllConfined(ss)
    ensures Inv(ss, db, Run(ss, Start(ss, db), schedule))
    decreases |schedule|
  {
    hide Inv, NonConflicting, AllConfined, Next;
    if schedule == [] {
      StartInv(ss, db);
    } else {
      RunKeepsInv(ss, db, schedule[..|schedule| - 1]);
      StepKeepsInv(ss, db, Run(ss, Start(ss, db), schedule[..|schedule| - 1]), schedule[|schedule| - 1]);
    }
  }

  lemma StartInv(ss: seq<Statement>, db: Database)
    ensures Inv(ss, db, Start(ss, db))
  {
  }

  // ---------- The serial run ----------

  /** The order runs every statement exactly once. */
  ghost predicate OnceEach(order: seq<nat>, count: nat) {
    NoRepeats(order) && InBounds(order, count) && forall i | 0 <= i < count :: i in order
  }

  /** After some of the statements: a table one of them wrote holds that, any other is as at first. */
  ghost predicate SerialHolds(ss: seq<Statement>, order: seq<nat>, db: Database, now: Database) {
    now.Keys == db.Keys && forall n | n in db :: TableHolds(ss, order, db, now, n)
  }

  ghost predicate TableHolds(ss: seq<Statement>, order: seq<nat>, db: Database, now: Database, n: string)
    requires n in db && n in now
  {
    && (forall i | i in order && i < |ss| && AnswerOn(ss[i], db).Answered? && n in AnswerOn(ss[i], db).writes :: now[n] == AnswerOn(ss[i], db).writes[n])
    && ((forall i | i in order && i < |ss| && AnswerOn(ss[i], db).Answered? :: n !in AnswerOn(ss[i], db).writes) ==> now[n] == db[n])
  }

  /** A statement whose tables are as at first answers as at first. */
  lemma SameTablesSameAnswer(s: Statement, db: Database, now: Database)
    requires now.Keys == db.Keys && forall n | n in s.accesses && n in db :: now[n] == db[n]
    ensures AnswerOn(s, now) == AnswerOn(s, db)
  {
    assert ReadCopies(s, now) == ReadCopies(s, db);
    assert WriteCopies(s, now) == WriteCopies(s, db);
  }

  /** One statement does not write a table another one uses. */
  lemma WritesApart(ss: seq<Statement>, db: Database, i: nat, j: nat, n: string)
    requires NonConflicting(ss) && AllConfined(ss) && i < |ss| && j < |ss| && i != j
    requires AnswerOn(ss[j], db).Answered? && n in ss[i].accesses
    ensures n !in AnswerOn(ss[j], db).writes
  {
    hide AnswerOn, Confined;
    assert Confined(ss[j]);
    assert WriteSet(ss[j]) !! ss[i].accesses.Keys;
    if n in AnswerOn(ss[j], db).writes {
      InWriteSet(ss[j], db, n);
    }
  }

  lemma NotYetTouched(ss: seq<Statement>, order: seq<nat>, db: Database, now: Database, i: nat)
    requires NonConflicting(ss) && AllConfined(ss) && SerialHolds(ss, order, db, now)
    requires i < |ss| && i !in order
    ensures forall n | n in ss[i].accesses && n in db :: now[n] == db[n]
  {
    hide AnswerOn, NonConflicting, AllConfined;
    forall n | n in ss[i].accesses && n in db
      ensures now[n] == db[n]
    {
      forall j | j in order && j < |ss| && AnswerOn(ss[j], db).Answered?
        ensures n !in AnswerOn(ss[j], db).writes
      {
        WritesApart(ss, db, i, j, n);
      }
    }
  }

  predicate NoRepeats(order: seq<nat>) {
    forall i, j | 0 <= i < j < |order| :: order[i] != order[j]
  }

  lemma SplitOrder(order: seq<nat>, count: nat)
    requires order != [] && NoRepeats(order) && InBounds(order, count)
    ensures var n := |order| - 1;
            order == order[..n] + [order[n]] && NoRepeats(order[..n]) && InBounds(order[..n], count) && order[n] !in order[..n] && order[n] < count
  {
  }

  lemma {:induction false} SerialIsHolds(ss: seq<Statement>, order: seq<nat>, db: Database)
    requires NonConflicting(ss) && AllConfined(ss) && InBounds(order, |ss|) && NoRepeats(order)
    ensures SerialHolds(ss, order, db, Serial(ss, order, db))
    decreases |order|
  {
    hide NonConflicting, AllConfined, AnswerOn, InBounds, NoRepeats;
    if order != [] {
      SplitOrder(order, |ss|);
      var front, last := order[..|order| - 1], order[|order| - 1];
      SerialIsHolds(ss, front, db);
      var now := Serial(ss, front, db);
      hide SerialHolds;
      SerialStep(ss, front, last, db, now);
    }
  }

  lemma SerialStep(ss: seq<Statement>, front: seq<nat>, last: nat, db: Database, now: Database)
    requires NonConflicting(ss) && AllConfined(ss)
    requires last < |ss| && last !in front && SerialHolds(ss, front, db, now)
    ensures SerialHolds(ss, front + [last], db, AfterStatement(ss[last], now))
  {
    hide AnswerOn, NonConflicting, AllConfined;
    NotYetTouched(ss, front, db, now, last);
    SameTablesSameAnswer(ss[last], db, now);
    var after := AfterStatement(ss[last], now);
    var a := AnswerOn(ss[last], db);
    forall n | n in db
      ensures TableHolds(ss, front + [last], db, after, n)
    {
      assert TableHolds(ss, front, db, now, n);
      if a.Answered? && n in a.writes {
        forall i | i in front && i < |ss| && AnswerOn(ss[i], db).Answered?
          ensures n !in AnswerOn(ss[i], db).writes
        {
          WriterApart(ss, db, i, last, n);
        }
      }
      assert forall i :: i in front + [last] <==> i in front || i == last;
    }
  }

  lemma WriterApart(ss: seq<Statement>, db: Database, i: nat, j: nat, n: string)
    requires NonConflicting(ss) && AllConfined(ss) && i < |ss| && j < |ss| && i != j
    requires AnswerOn(ss[i], db).Answered? && AnswerOn(ss[j], db).Answered? && n in AnswerOn(ss[j], db).writes
    ensures n !in AnswerOn(ss[i], db).writes
  {
    hide AnswerOn, NonConflicting;
    assert Confined(ss[j]);
    InWriteSet(ss[j], db, n);
    WritesApart(ss, db, j, i, n);
  }

  // ---------- Serializability ----------

  /**
   Statements that do not conflict serialize: for every interleaving of their copy-in, execution and
   copy-out steps that lets all of them end, and for every order of running them one after another,
   the final tables are the same.
   */
  lemma {:induction false} Serializable(ss: seq<Statement>, db: Database, schedule: seq<Step>, order: seq<nat>)
    requires NonConflicting(ss) && AllConfined(ss) && OnceEach(order, |ss|)
    requires AllDone(Run(ss, Start(ss, db), schedule))
    ensures Run(ss, Start(ss, db), schedule).db == Serial(ss, order, db)
  {
    var w := Run(ss, Start(ss, db), schedule);
    RunKeepsInv(ss, db, schedule);
    SerialIsHolds(ss, order, db);
    hide AnswerOn, Run, Serial, NonConflicting, AllConfined;
    forall n | n in db
      ensures w.db[n] == Serial(ss, order, db)[n]
    {
      FinalTable(ss, db, w, order, Serial(ss, order, db), n);
    }
  }

  lemma DoneWritten(s: Statement, db: Database, p: Phase, n: string)
    requires Done(p) && OnTrack(s, db, p)
    ensures n in Written(s, db, p) <==> AnswerOn(s, db).Answered? && n in AnswerOn(s, db).writes
    ensures n in Written(s, db, p) ==> Written(s, db, p)[n] == AnswerOn(s, db).writes[n]
  {
    hide AnswerOn;
  }

  lemma FinalTable(ss: seq<Statement>, db: Database, w: World, order: seq<nat>, now: Database, n: string)
    requires Inv(ss, db, w) && SerialHolds(ss, order, db, now) && n in db && OnceEach(order, |ss|)
    requires AllDone(w)
    ensures w.db[n] == now[n]
  {
    hide AnswerOn, Written, OnTrack, NoRepeats, InBounds;
    assert HoldsWritten(ss, db, w, n) && TableHolds(ss, order, db, now, n);
    forall i | 0 <= i < |ss|
      ensures n in Written(ss[i], db, w.phases[i]) <==> AnswerOn(ss[i], db).Answered? && n in AnswerOn(ss[i], db).writes
      ensures n in Written(ss[i], db, w.phases[i]) ==> Written(ss[i], db, w.phases[i])[n] == AnswerOn(ss[i], db).writes[n]
    {
      assert OnTrack(ss[i], db, w.phases[i]);
      DoneWritten(ss[i], db, w.phases[i], n);
    }
    if i :| 0 <= i < |ss| && n in Written(ss[i], db, w.phases[i]) {
      assert i in order;
    }
  }

  /** Each statement's own answer is also the one it gives when its turn comes in that order. */
  lemma {:induction false} SameAnswers(ss: seq<Statement>, db: Database, schedule: seq<Step>, order: seq<nat>, k: nat)
    requires NonConflicting(ss) && AllConfined(ss) && OnceEach(order, |ss|) && k < |order|
    requires order[k] < |ss| && InBounds(order[..k], |ss|)
    requires Done(Run(ss, Start(ss, db), schedule).phases[order[k]])
    ensures var p := Run(ss, Start(ss, db), schedule).phases[order[k]];
            var alone := AnswerOn(ss[order[k]], Serial(ss, order[..k], db));
            if p.Finished? then alone.Answered? && alone.result == p.result else alone.Error?
  {
    var i := order[k];
    assert NoRepeats(order[..k]) && i !in order[..k];
    var now := Serial(ss, order[..k], db);
    RunKeepsInv(ss, db, schedule);
    SerialIsHolds(ss, order[..k], db);
    hide AnswerOn, Run, Serial, NonConflicting, AllConfined, HoldsWritten, TableHolds, NoRepeats;
    NotYetTouched(ss, order[..k], db, now, i);
    SameTablesSameAnswer(ss[i], db, now);
    assert OnTrack(ss[i], db, Run(ss, Start(ss, db), schedule).phases[i]);
  }

  // ---------- Statements that do conflict ----------

  /** `UPDATE t SET ...` appending one row to a table. */
  function Append(name: string, row: Row): Statement {
    Statement(map[name := Write],
              (r: Database, w: Database) => if name in w then Answered(Table([]), map[name := w[name].(rows := w[name].rows + [row])]) else Error)
  }

  /** Both copy the table, both run, both write it back. */
  function Overlapping(name: string): seq<Step> {
    [Step(0, CopyIn(name)), Step(1, CopyIn(name)), Step(0, Execute), Step(1, Execute),
     Step(0, CopyOut(name)), Step(0, Finish), Step(1, CopyOut(name)), Step(1, Finish)]
  }

  lemma RunAppend(ss: seq<Statement>, w: World, front: seq<Step>, step: Step)
    requires |w.phases| == |ss|
    ensures Run(ss, w, front + [step]) == Next(ss, Run(ss, w, front), step)
  {
    hide Next;
    assert (front + [step])[..|front|] == front;
  }

  /** The life of one appending statement that finds the table as `t` when it copies it. */
  lemma AppendPhases(name: string, row: Row, t: Stored, now: Database)
    requires name in now
    ensures var s := Append(name, row);
            var copying := Copying(map[], map[name := t], {name});
            var committing := Committing(Table([]), map[name := t.(rows := t.rows + [row])]);
            && (now[name] == t ==> NextPhase(s, now, Copying(map[], map[], {}), CopyIn(name)) == copying)
            && NextPhase(s, now, copying, Execute) == committing
            && NextPhase(s, now, committing, CopyOut(name)) == Committing(Table([]), map[])
            && NextPhase(s, now, Committing(Table([]), map[]), Finish) == Finished(Table([]))
  {
    var s := Append(name, row);
    assert s.accesses.Keys == {name};
    assert map[name := t.(rows := t.rows + [row])] - {name} == map[];
  }

  lemma StepOf(ss: seq<Statement>, w: World, i: nat, a: Action, p: Phase)
    requires |w.phases| == |ss| == 2 && i < 2 && NextPhase(ss[i], w.db, w.phases[i], a) == p
    ensures Next(ss, w, Step(i, a)) == World(NextDb(w.db, w.phases[i], a), if i == 0 then [p, w.phases[1]] else [w.phases[0], p])
  {
    hide NextPhase, NextDb;
  }

  lemma RunEight(ss: seq<Statement>, w: World, a: seq<Step>)
    requires |w.phases| == |ss| && |a| == 8
    ensures Run(ss, w, a) == Next(ss, Next(ss, Next(ss, Next(ss, Next(ss, Next(ss, Next(ss, Next(ss, w, a[0]), a[1]), a[2]), a[3]), a[4]), a[5]), a[6]), a[7])
  {
    hide Run, Next;
    RunFour(ss, w, a[..4]);
    var v := Run(ss, w, a[..4]);
    RunAppend(ss, w, a[..4], a[4]);
    RunAppend(ss, w, a[..5], a[5]);
    RunAppend(ss, w, a[..6], a[6]);
    RunAppend(ss, w, a[..7], a[7]);
    assert a[..5] == a[..4] + [a[4]] && a[..6] == a[..5] + [a[5]] && a[..7] == a[..6] + [a[6]] && a == a[..7] + [a[7]];
  }

  lemma RunFour(ss: seq<Statement>, w: World, a: seq<Step>)
    requires |w.phases| == |ss| && |a| == 4
    ensures Run(ss, w, a) == Next(ss, Next(ss, Next(ss, Next(ss, w, a[0]), a[1]), a[2]), a[3])
  {
    assert Run(ss, w, []) == w;
    hide Run, Next;
    RunAppend(ss, w, [], a[0]);
    RunAppend(ss, w, a[..1], a[1]);
    RunAppend(ss, w, a[..2], a[2]);
    RunAppend(ss, w, a[..3], a[3]);
    assert a[..1] == [] + [a[0]] && a[..2] == a[..1] + [a[1]] && a[..3] == a[..2] + [a[2]] && a == a[..3] + [a[3]];
  }

  lemma AfterAppend(name: string, row: Row, t: Stored)
    ensures AfterStatement(Append(name, row), map[name := t]) == map[name := t.(rows := t.rows + [row])]
  {
    var s, db := Append(name, row), map[name := t];
    assert WriteCopies(s, db) == map[name := t];
    assert Present(s, db);
  }

  lemma SerialAppends(name: string, r0: Row, r1: Row, t: Stored)
    ensures var ss := [Append(name, r0), Append(name, r1)];
            && Serial(ss, [0, 1], map[name := t]) == map[name := t.(rows := t.rows + [r0] + [r1])]
            && Serial(ss, [1, 0], map[name := t]) == map[name := t.(rows := t.rows + [r1] + [r0])]
  {
    hide AfterStatement;
    var ss := [Append(name, r0), Append(name, r1)];
    var db := map[name := t];
    assert [0, 1][..1] == [0] && [1, 0][..1] == [1] && [0][..0] == [] && [1][..0] == [];
    AfterAppend(name, r0, t);
    AfterAppend(name, r1, t);
    AfterAppend(name, r1, t.(rows := t.rows + [r0]));
    AfterAppend(name, r0, t.(rows := t.rows + [r1]));
    assert Serial(ss, [0], db) == AfterStatement(ss[0], Serial(ss, [], db));
    assert Serial(ss, [1], db) == AfterStatement(ss[1], Serial(ss, [], db));
  }

  /** Two statements appending to one table, overlapping: one of the two rows is lost, as in no serial order. */
  lemma {:induction false} LostUpdate(name: string, r0: Row, r1: Row, t: Stored)
    ensures var ss := [Append(name, r0), Append(name, r1)];
            var db := map[name := t];
            var w := Run(ss, Start(ss, db), Overlapping(name));
            && w.phases == [Finished(Table([])), Finished(Table([]))]
            && w.db == map[name := t.(rows := t.rows + [r1])]
            && w.db != Serial(ss, [0, 1], db)
            && w.db != Serial(ss, [1, 0], db)
  {
    hide NextPhase, Run, Serial, Next;
    var ss := [Append(name, r0), Append(name, r1)];
    var db := map[name := t];
    var start, copied := Copying(map[], map[], {}), Copying(map[], map[name := t], {name});
    var t0, t1 := t.(rows := t.rows + [r0]), t.(rows := t.rows + [r1]);
    var e0, e1 := Committing(Table([]), map[name := t0]), Committing(Table([]), map[name := t1]);
    var empty, done := Committing(Table([]), map[]), Finished(Table([]));
    var db0, db1 := map[name := t0], map[name := t1];
    AppendPhases(name, r0, t, db);
    AppendPhases(name, r1, t, db);
    AppendPhases(name, r0, t, db0);
    AppendPhases(name, r1, t, db0);
    AppendPhases(name, r1, t, db1);
    assert Start(ss, db) == World(db, [start, start]);
    StepOf(ss, World(db, [start, start]), 0, CopyIn(name), copied);
    StepOf(ss, World(db, [copied, start]), 1, CopyIn(name), copied);
    StepOf(ss, World(db, [copied, copied]), 0, Execute, e0);
    StepOf(ss, World(db, [e0, copied]), 1, Execute, e1);
    StepOf(ss, World(db, [e0, e1]), 0, CopyOut(name), empty);
    assert db[name := t0] == db0 && db0[name := t1] == db1;
    StepOf(ss, World(db0, [empty, e1]), 0, Finish, done);
    StepOf(ss, World(db0, [done, e1]), 1, CopyOut(name), empty);
    StepOf(ss, World(db1, [done, empty]), 1, Finish, done);
    RunEight(ss, Start(ss, db), Overlapping(name));
    SerialAppends(name, r0, r1, t);
    assert |t.rows + [r1]| < |t.rows + [r0] + [r1]|;
  }
}

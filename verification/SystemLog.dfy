/** The store under the transition system: which store operations each event performs, and that the rows of
    every run are the rows the store has after them, so that its event log replays to them. */
module SystemLog {
  import opened Words
  import opened Workers
  import opened Store
  import opened JobSystem
  import opened Guarantees

  function Rows(w: World): map<string, Row> {
    map id | id in w.jobs :: w.jobs[id].row
  }

  /** The move to running that a launch records. */
  function LaunchOp(j: Job, id: string, self: Starter, now: int): Op {
    Transition(id, Running, LaunchColumns(self, |j.containers|), now)
  }

  /** The store operations behind a controller step. */
  function StepOps(j: Job, id: string, s: ControllerStep): seq<Op>
    requires ControllerEnabled(j, s)
  {
    match s
    case Launch(self, now) => [LaunchOp(j, id, self, now)]
    case StartRefused => []
    case StartFails(now) => [Transition(id, Failed, map[ExitCode := Int(-1)], now)]
    case ReadLine(stored, now) =>
      var l := j.containers[j.stream.value.cid].log[j.stream.value.pos];
      if stored && Decodes(l) then [RecordCheckpoint(id, l.epoch, l.found, "state.bin", now)] else []
    case StreamEnds(_, now) =>
      var st := j.stream.value;
      var p := j.containers[st.cid].proc;
      if p.Alive? then []
      else
        var next := if p.code == 0 || st.sawCompleted then Completed else Failed;
        [Transition(id, next, map[ExitCode := Int(p.code)], now)]
    case StreamLost(now) => [Transition(id, Failed, map[], now)]
    case CancelJob(now) => [Transition(id, Cancelled, map[], now)]
    case MarkInterrupted(now) =>
      [Transition(id, if HasCheckpoint(j.row) then InterruptedResumable else InterruptedUnresumable, map[], now)]
    case ScanRow(launch, now) =>
      match Decision(j)
      case MarkResumable =>
        [Transition(id, InterruptedResumable, map[], now)] +
        (if launch.Some? && Moved(j.row, InterruptedResumable, map[], now).state == InterruptedResumable
         then [LaunchOp(j, id, launch.value, now)] else [])
      case MarkUnresumable => [Transition(id, InterruptedUnresumable, map[], now)]
      case Resume => if launch.Some? then [LaunchOp(j, id, launch.value, now)] else []
      case _ => []
  }

  /** The store operations behind an event; workers and crashes do not touch the store. */
  function EventOps(w: World, e: SystemEvent): seq<Op> {
    match e
    case Create(id, _, now) => [Op.Create(id, None, now, now)]
    case Control(id, s) => if id in w.jobs && ControllerEnabled(w.jobs[id], s) then StepOps(w.jobs[id], id, s) else []
    case _ => []
  }

  /** All store operations of the first i events of a run. */
  ghost function RunOps(ws: seq<World>, es: seq<SystemEvent>, i: nat): seq<Op>
    requires i <= |es| && |ws| == |es| + 1
  {
    if i == 0 then [] else RunOps(ws, es, i - 1) + EventOps(ws[i - 1], es[i - 1])
  }

  // ---------------------------------------------------------------- one step

  lemma {:induction false} RunAllAppend(db: Db, a: seq<Op>, b: seq<Op>)
    ensures RunAll(db, a + b) == RunAll(RunAll(db, a), b)
    decreases |b|
  {
    hide After;
    if b == [] {
      assert a + b == a;
    } else {
      var n := |b| - 1;
      assert (a + b)[..|a + b| - 1] == a + b[..n] && Last(a + b) == Last(b);
      RunAllAppend(db, a, b[..n]);
    }
  }

  lemma RunOne(db: Db, op: Op)
    ensures RunAll(db, [op]) == After(db, op)
  {
    hide After;
    assert [op][..0] == [];
    assert RunAll(db, [op][..0]) == db;
  }

  /** A transition whose rejection is ignored moves the row as the system does. */
  lemma MoveRow(db: Db, id: string, next: JobState, setters: map<Column, Value>, now: int)
    requires id in db.rows
    ensures RunAll(db, [Transition(id, next, setters, now)]).rows ==
            db.rows[id := Moved(db.rows[id], next, setters, now)]
  {
    hide Updates, IsValidTransition, Keep;
    RunOne(db, Transition(id, next, setters, now));
    assert db.rows[id := db.rows[id]] == db.rows;
  }

  lemma RecordRow(db: Db, id: string, epoch: int, found: int, path: string, now: int)
    requires id in db.rows
    ensures RunAll(db, [RecordCheckpoint(id, epoch, found, path, now)]).rows ==
            db.rows[id := CheckpointRow(db.rows[id], epoch, found, path, now)]
  {
    hide CheckpointRow;
    RunOne(db, RecordCheckpoint(id, epoch, found, path, now));
  }

  /** The operations of a controller step have the effect the step has on the row. */
  lemma StepRow(db: Db, j: Job, id: string, s: ControllerStep)
    requires ControllerEnabled(j, s) && id in db.rows && db.rows[id] == j.row
    ensures RunAll(db, StepOps(j, id, s)).rows == db.rows[id := ControllerDo(j, s).row]
  {
    hide Moved, CheckpointRow, After;
    assert db.rows[id := j.row] == db.rows;
    match s
    case Launch(self, now) => MoveRow(db, id, Running, LaunchColumns(self, |j.containers|), now);
    case StartRefused =>
    case StartFails(now) => MoveRow(db, id, Failed, map[ExitCode := Int(-1)], now);
    case ReadLine(stored, now) =>
      var l := j.containers[j.stream.value.cid].log[j.stream.value.pos];
      if stored && Decodes(l) { RecordRow(db, id, l.epoch, l.found, "state.bin", now); }
    case StreamEnds(_, now) =>
      var p := j.containers[j.stream.value.cid].proc;
      if !p.Alive? {
        var next := if p.code == 0 || j.stream.value.sawCompleted then Completed else Failed;
        MoveRow(db, id, next, map[ExitCode := Int(p.code)], now);
      }
    case StreamLost(now) => MoveRow(db, id, Failed, map[], now);
    case CancelJob(now) => MoveRow(db, id, Cancelled, map[], now);
    case MarkInterrupted(now) =>
      MoveRow(db, id, if HasCheckpoint(j.row) then InterruptedResumable else InterruptedUnresumable, map[], now);
    case ScanRow(launch, now) => ScanRowOps(db, j, id, launch, now);
  }

  lemma ScanRowOps(db: Db, j: Job, id: string, launch: Option<Starter>, now: int)
    requires j.scan.Some? && id in db.rows && db.rows[id] == j.row
    ensures RunAll(db, StepOps(j, id, ScanRow(launch, now))).rows ==
            db.rows[id := ControllerDo(j, ScanRow(launch, now)).row]
  {
    hide Moved, After, RunAll, HasCheckpoint, LaunchColumns;
    var self := if launch.Some? then launch.value else Starter(0, "", "");
    var setters := LaunchColumns(self, |j.containers|);
    RunNone(db);
    assert db.rows[id := j.row] == db.rows;
    MoveRow(db, id, InterruptedResumable, map[], now);
    MoveRow(db, id, InterruptedUnresumable, map[], now);
    MoveRow(db, id, Running, setters, now);
    var mark := [Transition(id, InterruptedResumable, map[], now)];
    var mid := RunAll(db, mark);
    RunAllAppend(db, mark, []);
    RunAllAppend(db, mark, [LaunchOp(j, id, self, now)]);
    RunNone(mid);
    MoveRow(mid, id, Running, setters, now);
    var m := Moved(j.row, InterruptedResumable, map[], now);
    assert db.rows[id := m][id := Moved(m, Running, setters, now)] == db.rows[id := Moved(m, Running, setters, now)];
  }

  lemma RunNone(db: Db)
    ensures RunAll(db, []) == db
  {
  }

  lemma EventRows(db: Db, w: World, e: SystemEvent, v: World)
    requires Next(w, e, v) && db.rows == Rows(w)
    ensures RunAll(db, EventOps(w, e)).rows == Rows(v)
  {
    hide ControllerEnabled, ControllerDo, WorkerEnabled, WorkerDo, RunAll, StepOps;
    RunNone(db);
    match e
    case Create(id, a, now) =>
      RunOne(db, Op.Create(id, None, now, now));
      assert Rows(v) == Rows(w)[id := NewJob(a, now).row];
    case Work(id, c, s) =>
      WorkerLeavesRow(w.jobs[id], c, s);
      assert Rows(v) == Rows(w);
    case Control(id, s) =>
      StepRow(db, w.jobs[id], id, s);
      assert Rows(v) == Rows(w)[id := ControllerDo(w.jobs[id], s).row];
    case ControllerCrash => assert Rows(v) == Rows(w);
    case ControllerRestart(_) => assert Rows(v) == Rows(w);
  }

  // ---------------------------------------------------------------- whole runs

  /** The rows of every state of every run are those of the store after the operations so far. */
  lemma {:induction false} RowsFromStore(ws: seq<World>, es: seq<SystemEvent>, i: nat)
    requires Execution(ws, es) && i < |ws|
    ensures |ws| == |es| + 1 && RunAll(EMPTY, RunOps(ws, es, i)).rows == Rows(ws[i])
  {
    hide Next, RunAll, EventOps;
    if i == 0 {
      RunNone(EMPTY);
    } else {
      RowsFromStore(ws, es, i - 1);
      var db := RunAll(EMPTY, RunOps(ws, es, i - 1));
      EventRows(db, ws[i - 1], es[i - 1], ws[i]);
      RunAllAppend(EMPTY, RunOps(ws, es, i - 1), EventOps(ws[i - 1], es[i - 1]));
    }
  }

  lemma EventTidy(w: World, e: SystemEvent)
    ensures forall i :: 0 <= i < |EventOps(w, e)| ==> Tidy(EventOps(w, e)[i]) && CreatesLive(EventOps(w, e)[i])
  {
    hide Moved, Decodes;
  }

  lemma {:induction false} RunTidy(ws: seq<World>, es: seq<SystemEvent>, i: nat)
    requires i <= |es| && |ws| == |es| + 1
    ensures forall m :: 0 <= m < |RunOps(ws, es, i)| ==> Tidy(RunOps(ws, es, i)[m]) && CreatesLive(RunOps(ws, es, i)[m])
  {
    hide EventOps, Tidy, CreatesLive;
    if i == 0 {
    } else {
      RunTidy(ws, es, i - 1);
      EventTidy(ws[i - 1], es[i - 1]);
    }
  }

  /** Audit of a whole run: in every state of every run, replaying the store's event log gives the state and
      all logged columns of every row, and finished_at marks exactly the finished jobs. */
  lemma RunReplays(ws: seq<World>, es: seq<SystemEvent>, i: nat, id: string)
    requires Execution(ws, es) && i < |ws| && id in ws[i].jobs
    ensures |ws| == |es| + 1
    ensures var r := ws[i].jobs[id].row;
            && Agrees(Replay(RunAll(EMPTY, RunOps(ws, es, i)).events, id), r, LOGGED)
            && (FinishedAt in r.cols <==> IsTerminal(r.state))
  {
    hide Execution, RunAll, RunOps, Replay, Agrees, Tidy, CreatesLive;
    RowsFromStore(ws, es, i);
    RunTidy(ws, es, i);
    ReplayReproducesRow(RunOps(ws, es, i), id);
  }
}

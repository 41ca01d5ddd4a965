/** What the lines of a log and the columns of a row report, in every state of every run, said in terms of the
    computation itself. */
module Reports {
  import opened Words
  import opened Workers
  import opened Store
  import opened JobSystem
  import opened Guarantees
  import opened Runs
  import Numbers = Primes
  import Sieve
  import MatMul
  import WordCount

  // ---------------------------------------------------------------- the found value

  /** What job a has found when its cursor is at c: the number of primes below c, the sum of the first c cells
      of the product modulo 2^64, or the hash of the word counts of the first c positions. */
  ghost function FoundAt(a: Args, c: u64): nat {
    match a.worker
    case Primes => |Numbers.PrimesBelow(c)|
    case MatMulWorker => if a.limit == 0 then 0 else Wrap(MatMul.SumCells(a.seed, a.limit, c))
    case WordCountWorker => WordCount.CountsHash(WordCount.CountsAt(a.seed, c))
  }

  lemma FoundMeaning(a: Args, c: u64)
    ensures Found(AtCursor(a, c)) == FoundAt(a, c)
  {
    hide WordCount.CountsHash, WordCount.CountsAt, MatMul.SumCells, Numbers.PrimesBelow;
  }

  /** Every checkpoint line of every log reports what the job has found at the cursor it names, and that cursor
      is not past the file on disk. */
  lemma LinesTruthful(ws: seq<World>, es: seq<SystemEvent>, i: nat, id: string, c: nat, k: nat)
    requires Execution(ws, es) && i < |ws| && id in ws[i].jobs && c < |ws[i].jobs[id].containers|
    requires k < |ws[i].jobs[id].containers[c].log| && ws[i].jobs[id].containers[c].log[k].CheckpointLine?
    ensures var j := ws[i].jobs[id]; var l := j.containers[c].log[k];
            l.next < TWO64 && l.found == FoundAt(j.args, l.next) && l.next <= SafeCursor(j.args, j.disk)
  {
    hide Execution, FoundAt, Found, AtCursor, OnTrack, Supported, LastSound, FileSound, RecordSound, RowSound,
      ControlSound, SafeCursor;
    JobSound(ws, es, i, id);
    var j := ws[i].jobs[id];
    var l := j.containers[c].log[k];
    assert LogSound(j.args, j.disk, j.containers[c].log);
    assert LineSound(j.args, j.disk, l);
    FoundMeaning(j.args, l.next);
  }

  /** Durable before announced: whenever a row records a checkpoint, the state file exists, a resume accepts it
      with matching parameters, and the recorded value is what the job has found at some cursor at or before
      the one on disk; for the sieve it is at most the count on disk. */
  lemma DurableBeforeAnnounced(ws: seq<World>, es: seq<SystemEvent>, i: nat, id: string) returns (c: u64)
    requires Execution(ws, es) && i < |ws| && id in ws[i].jobs
    requires CkptAt in ws[i].jobs[id].row.cols
    ensures var j := ws[i].jobs[id]; var s := Boot(j.args, true, j.disk.main);
            && s.Ok? && OnTrack(j.args, s.value) && c <= Cursor(s.value)
            && CkptFound in j.row.cols && j.row.cols[CkptFound] == Int(FoundAt(j.args, c))
            && (j.args.worker == Primes ==> FoundAt(j.args, c) <= s.value.p.found)
  {
    hide Execution, OnTrack, Render, Load, Matches, AtCursor, Found, Cursor, FoundAt;
    JobSound(ws, es, i, id);
    var j := ws[i].jobs[id];
    var s := OnDisk(j.args, j.disk).value;
    LoadRender(j.args, s);
    c :| AnnouncedAt(j.args, c, j.row.cols[CkptFound].i, SafeCursor(j.args, j.disk));
    FoundMeaning(j.args, c);
    if j.args.worker == Primes { FoundMonotone(j.args, c, s); }
  }

  lemma FoundMonotone(a: Args, c: u64, s: State)
    requires a.worker == Primes && OnTrack(a, s) && OnTrack(a, AtCursor(a, c)) && c <= Cursor(s)
    ensures s.PrimesState? && Found(AtCursor(a, c)) <= s.p.found
  {
    Sieve.CountMonotone(c, s.p.next);
  }

  // ---------------------------------------------------------------- the shape of a log

  /** A log starts with the started line, goes on with the checkpoints of epoch 1, 2, 3 and so on, and may end with
      the completed line. */
  predicate Shaped(log: seq<Line>) {
    && (log != [] ==> log[0] == StartedLine)
    && forall k :: 1 <= k < |log| ==>
         (log[k].CheckpointLine? && log[k].epoch == k) || (log[k] == CompletedLine && k + 1 == |log|)
  }

  predicate Open(log: seq<Line>) {
    Shaped(log) && CompletedLine !in log
  }

  /** Where a worker is tells how much of its log is written. */
  predicate LogFits(c: Container) {
    Shaped(c.log) &&
    match c.proc
    case Exited(_) => true
    case Alive(pc) =>
      match pc
      case Booting(_) => c.log == []
      case Looping(_, _, epoch) => Open(c.log) && |c.log| == epoch + 1
      case Opening(_, _, epoch, _) => Open(c.log) && |c.log| == epoch && epoch >= 1
      case Writing(_, _, epoch, _, _) => Open(c.log) && |c.log| == epoch && epoch >= 1
      case Announcing(_, epoch, _) => Open(c.log) && |c.log| == epoch && epoch >= 1
      case Finishing(_) => Open(c.log) && c.log != []
      case Exiting => c.log != []
  }

  predicate LogsFit(j: Job) {
    forall c :: 0 <= c < |j.containers| ==> LogFits(j.containers[c])
  }

  lemma WorkerLogs(j: Job, c: nat, s: WorkerStep)
    requires LogsFit(j) && WorkerEnabled(j, c, s)
    ensures LogsFit(WorkerDo(j, c, s))
  {
    hide Boot, Advance, Tick, Done, Render, Enter, Found, Cursor, LogFits;
    WorkerLog(j, c, s);
    var k := WorkerDo(j, c, s);
    assert forall d :: 0 <= d < |k.containers| && d != c ==> k.containers[d] == j.containers[d];
  }

  lemma WorkerLog(j: Job, c: nat, s: WorkerStep)
    requires WorkerEnabled(j, c, s) && LogFits(j.containers[c])
    ensures c < |WorkerDo(j, c, s).containers| && LogFits(WorkerDo(j, c, s).containers[c])
  {
    hide Boot, Advance, Tick, Done, Render, Enter, Found, Cursor, Shaped, Open;
    var log, pc := j.containers[c].log, j.containers[c].proc.pc;
    assert log + [] == log;
    match s
    case BootStep => OpenMore([], StartedLine);
    case Announce => OpenMore(log, CheckpointLine(pc.epoch, Found(pc.mem), Cursor(pc.mem)));
    case Finish => OpenMore(log, CompletedLine);
    case _ =>
  }

  /** The lines that may follow an unfinished log. */
  lemma OpenMore(log: seq<Line>, l: Line)
    requires log == [] || Open(log)
    requires if log == [] then l == StartedLine else l == CompletedLine || (l.CheckpointLine? && l.epoch == |log|)
    ensures Shaped(log + [l]) && (l != CompletedLine ==> Open(log + [l]))
    ensures Open(log) ==> Shaped(log)
  {
    if log != [] && l != CompletedLine {
      forall k | 1 <= k < |log| + 1 ensures (log + [l])[k].CheckpointLine? && (log + [l])[k].epoch == k {
        if k < |log| { assert log[k] in log; }
      }
    }
    if log != [] && l == CompletedLine {
      forall k | 1 <= k < |log| ensures (log + [l])[k].CheckpointLine? && (log + [l])[k].epoch == k {
        assert log[k] in log;
      }
    }
  }

  lemma ControllerLogs(j: Job, s: ControllerStep)
    requires LogsFit(j) && ControllerEnabled(j, s)
    ensures LogsFit(ControllerDo(j, s))
  {
    hide Moved, Decision, Decodes, LaunchColumns, CheckpointRow;
  }

  lemma NextLogs(w: World, e: SystemEvent, v: World, id: string)
    requires Next(w, e, v) && id in v.jobs && (id in w.jobs ==> LogsFit(w.jobs[id]))
    ensures LogsFit(v.jobs[id])
  {
    hide WorkerEnabled, ControllerEnabled, WorkerDo, ControllerDo, LogFits;
    if e.Work? && e.id == id {
      WorkerLogs(w.jobs[id], e.container, e.step);
    } else if e.Control? && e.id == id {
      ControllerLogs(w.jobs[id], e.cstep);
    }
  }

  /** In every state of every run every log has that shape, and the log of a live worker is as long as its
      position in the program says. */
  lemma {:induction false} RunLogs(ws: seq<World>, es: seq<SystemEvent>, i: nat, id: string)
    requires Execution(ws, es) && i < |ws| && id in ws[i].jobs
    ensures LogsFit(ws[i].jobs[id])
  {
    hide Next, LogsFit;
    if i == 0 {
    } else {
      StepOf(ws, es, i - 1);
      if id in ws[i - 1].jobs { RunLogs(ws, es, i - 1, id); }
      NextLogs(ws[i - 1], es[i - 1], ws[i], id);
    }
  }

  // ---------------------------------------------------------------- the columns of a row

  /** The row before and after event i of a run, if the event is a step of the controller on job id. */
  lemma RowStep(ws: seq<World>, es: seq<SystemEvent>, i: nat, id: string)
    requires Execution(ws, es) && i < |es| && es[i].Control? && es[i].id == id
    ensures |ws| == |es| + 1 && id in ws[i].jobs && ControllerEnabled(ws[i].jobs[id], es[i].cstep)
    ensures id in ws[i + 1].jobs && ws[i + 1].jobs[id] == ControllerDo(ws[i].jobs[id], es[i].cstep)
  {
    hide ControllerEnabled, ControllerDo, WorkerDo, WorkerEnabled;
    StepOf(ws, es, i);
  }

  lemma LaunchRow(j: Job, self: Starter, now: int)
    requires ControllerEnabled(j, Launch(self, now))
    ensures MovedRow(j.row, ControllerDo(j, Launch(self, now)).row, Running, LaunchColumns(self, |j.containers|), now)
  {
    hide LaunchColumns, MovedRow;
    TransitionColumns(j.row, Running, LaunchColumns(self, |j.containers|), now);
  }

  lemma EndRow(j: Job, removed: bool, now: int)
    requires ControllerEnabled(j, StreamEnds(removed, now)) && Active(j.row.state)
    requires j.containers[j.stream.value.cid].proc.Exited?
    ensures var p := j.containers[j.stream.value.cid].proc;
            var next := if p.code == 0 || j.stream.value.sawCompleted then Completed else Failed;
            MovedRow(j.row, ControllerDo(j, StreamEnds(removed, now)).row, next, map[ExitCode := Int(p.code)], now)
  {
    hide MovedRow;
    var code := j.containers[j.stream.value.cid].proc.code;
    TransitionColumns(j.row, Completed, map[ExitCode := Int(code)], now);
    TransitionColumns(j.row, Failed, map[ExitCode := Int(code)], now);
  }

  lemma CancelRow(j: Job, now: int)
    requires ControllerEnabled(j, CancelJob(now))
    ensures var r := ControllerDo(j, CancelJob(now)).row;
            if IsTerminal(j.row.state) && j.row.state != Cancelled then r == j.row
            else MovedRow(j.row, r, Cancelled, map[], now)
  {
    hide MovedRow;
    TransitionColumns(j.row, Cancelled, map[], now);
  }

  /** A launch records the container, the launching controller and the time, and nothing else. */
  lemma LaunchRecorded(ws: seq<World>, es: seq<SystemEvent>, i: nat, id: string, self: Starter, now: int)
    requires Execution(ws, es) && i < |es| && es[i] == Control(id, Launch(self, now))
    ensures |ws| == |es| + 1 && id in ws[i].jobs && id in ws[i + 1].jobs
    ensures var j := ws[i].jobs[id]; var r := ws[i + 1].jobs[id].row; var n := |j.containers|;
            && r.state == Running
            && {ContainerId, ControllerPid, StateVolumePath, StartedAt} <= r.cols.Keys
            && r.cols[ContainerId] == Int(n) && r.cols[ControllerPid] == Int(self.pid)
            && r.cols[StateVolumePath] == Text(self.volume) && r.cols[StartedAt] == Int(now)
            && (self.controller != "" ==> AssignedControllerId in r.cols
                                          && r.cols[AssignedControllerId] == Text(self.controller))
            && forall c :: c !in {ContainerId, ControllerPid, StateVolumePath, StartedAt, AssignedControllerId} ==>
                 SameColumn(j.row, r, c)
  {
    hide Next, ControllerDo, ControllerEnabled;
    RowStep(ws, es, i, id);
    LaunchRow(ws[i].jobs[id], self, now);
  }

  /** The end of a dead worker's log records its exit code and the time. */
  lemma ExitRecorded(ws: seq<World>, es: seq<SystemEvent>, i: nat, id: string, removed: bool, now: int)
    requires Execution(ws, es) && i < |es| && es[i] == Control(id, StreamEnds(removed, now))
    requires i < |ws| && id in ws[i].jobs && Active(ws[i].jobs[id].row.state)
    requires var j := ws[i].jobs[id];
             j.stream.Some? && j.stream.value.cid < |j.containers| && j.containers[j.stream.value.cid].proc.Exited?
    ensures |ws| == |es| + 1 && id in ws[i + 1].jobs
    ensures var j := ws[i].jobs[id]; var r := ws[i + 1].jobs[id].row;
            && {ExitCode, FinishedAt} <= r.cols.Keys && r.cols[FinishedAt] == Int(now)
            && r.cols[ExitCode] == Int(j.containers[j.stream.value.cid].proc.code)
            && forall c :: c !in {ExitCode, FinishedAt} ==> SameColumn(j.row, r, c)
  {
    hide Next, ControllerDo, ControllerEnabled;
    RowStep(ws, es, i, id);
    EndRow(ws[i].jobs[id], removed, now);
  }

  /** A failed start marks a pending job failed with exit code -1. */
  lemma StartFailureRecorded(ws: seq<World>, es: seq<SystemEvent>, i: nat, id: string, now: int)
    requires Execution(ws, es) && i < |es| && es[i] == Control(id, StartFails(now))
    requires i < |ws| && id in ws[i].jobs && ws[i].jobs[id].row.state == Pending
    ensures |ws| == |es| + 1 && id in ws[i + 1].jobs
    ensures var r := ws[i + 1].jobs[id].row;
            && r.state == Failed && {ExitCode, FinishedAt} <= r.cols.Keys
            && r.cols[ExitCode] == Int(-1) && r.cols[FinishedAt] == Int(now)
  {
    RowStep(ws, es, i, id);
    TransitionColumns(ws[i].jobs[id].row, Failed, map[ExitCode := Int(-1)], now);
  }

  /** Reading a decodable line, if the record goes through, stores its epoch and found value and the time. */
  lemma LineRecorded(ws: seq<World>, es: seq<SystemEvent>, i: nat, id: string, now: int)
    requires Execution(ws, es) && i < |es| && es[i] == Control(id, ReadLine(true, now))
    requires i < |ws| && id in ws[i].jobs
    requires var j := ws[i].jobs[id];
             && j.stream.Some? && j.stream.value.cid < |j.containers|
             && j.stream.value.pos < |j.containers[j.stream.value.cid].log|
             && var l := j.containers[j.stream.value.cid].log[j.stream.value.pos];
                l.CheckpointLine? && l.epoch < 0x8000_0000_0000_0000 && l.found < 0x8000_0000_0000_0000
                && l.next < 0x8000_0000_0000_0000
    ensures |ws| == |es| + 1 && id in ws[i + 1].jobs
    ensures var j := ws[i].jobs[id]; var l := j.containers[j.stream.value.cid].log[j.stream.value.pos];
            CheckpointedRow(j.row, ws[i + 1].jobs[id].row, l.epoch, l.found, "state.bin", now)
  {
    hide CheckpointRow, CheckpointedRow;
    RowStep(ws, es, i, id);
    var j := ws[i].jobs[id];
    var l := j.containers[j.stream.value.cid].log[j.stream.value.pos];
    CheckpointColumns(j.row, l.epoch, l.found, "state.bin", now);
  }

  /** A checkpoint line whose found value, a hash or a fingerprint, is 2^63 or more is skipped: the row stays as
      it is. So is every line whose record fails, and every other line. */
  lemma LineSkipped(ws: seq<World>, es: seq<SystemEvent>, i: nat, id: string, stored: bool, now: int)
    requires Execution(ws, es) && i < |es| && es[i] == Control(id, ReadLine(stored, now))
    requires i < |ws| && id in ws[i].jobs
    requires var j := ws[i].jobs[id];
             && j.stream.Some? && j.stream.value.cid < |j.containers|
             && j.stream.value.pos < |j.containers[j.stream.value.cid].log|
             && var l := j.containers[j.stream.value.cid].log[j.stream.value.pos];
                !stored || !l.CheckpointLine? || l.found >= 0x8000_0000_0000_0000
    ensures |ws| == |es| + 1 && id in ws[i + 1].jobs && ws[i + 1].jobs[id].row == ws[i].jobs[id].row
  {
    RowStep(ws, es, i, id);
  }

  /** A job that was ever launched has started_at set. */
  predicate Stamped(j: Job) {
    j.containers != [] ==> StartedAt in j.row.cols
  }

  lemma MovedStamps(r: Row, next: JobState, setters: map<Column, Value>, now: int)
    ensures StartedAt in r.cols ==> StartedAt in Moved(r, next, setters, now).cols
    ensures next == Running && IsValidTransition(r.state, next) ==> StartedAt in Moved(r, next, setters, now).cols
  {
    hide IsValidTransition, Updates;
    TransitionColumns(r, next, setters, now);
  }

  lemma LaunchStamps(j: Job, self: Starter, now: int)
    requires j.row.state == Pending || j.row.state == InterruptedResumable
    ensures Stamped(Launched(j, self, now))
  {
    hide Moved, LaunchColumns;
    MovedStamps(j.row, Running, LaunchColumns(self, |j.containers|), now);
  }

  lemma ControllerStamps(j: Job, s: ControllerStep)
    requires Stamped(j) && ControllerEnabled(j, s)
    ensures Stamped(ControllerDo(j, s))
  {
    hide Moved, Decodes, LaunchColumns;
    match s
    case Launch(self, now) => LaunchStamps(j, self, now);
    case StartRefused =>
    case StartFails(now) => MovedStamps(j.row, Failed, map[ExitCode := Int(-1)], now);
    case ReadLine(_, _) =>
    case StreamEnds(_, now) =>
      var p := j.containers[j.stream.value.cid].proc;
      if p.Exited? {
        MovedStamps(j.row, Completed, map[ExitCode := Int(p.code)], now);
        MovedStamps(j.row, Failed, map[ExitCode := Int(p.code)], now);
      }
    case StreamLost(now) => MovedStamps(j.row, Failed, map[], now);
    case CancelJob(now) => MovedStamps(j.row, Cancelled, map[], now);
    case MarkInterrupted(now) =>
      MovedStamps(j.row, InterruptedResumable, map[], now);
      MovedStamps(j.row, InterruptedUnresumable, map[], now);
    case ScanRow(launch, now) => ScanStamps(j, launch, now);
  }

  lemma ScanStamps(j: Job, launch: Option<Starter>, now: int)
    requires Stamped(j) && j.scan.Some?
    ensures Stamped(ControllerDo(j, ScanRow(launch, now)))
  {
    hide Moved, Launched, HasCheckpoint, Stamped;
    MovedStamps(j.row, InterruptedResumable, map[], now);
    MovedStamps(j.row, InterruptedUnresumable, map[], now);
    StampedRow(j, j.(scan := None));
    StampedRow(j, j.(scan := None, row := Moved(j.row, InterruptedResumable, map[], now)));
    StampedRow(j, j.(scan := None, row := Moved(j.row, InterruptedUnresumable, map[], now)));
    if j.scan.value.Some? {
      StampedRow(j, j.(scan := None, stream := Some(Stream(j.scan.value.value.cid, 0, false))));
    }
    if launch.Some? {
      var k := j.(scan := None);
      var m := k.(row := Moved(j.row, InterruptedResumable, map[], now));
      if k.row.state == InterruptedResumable { LaunchStamps(k, launch.value, now); }
      if m.row.state == InterruptedResumable { LaunchStamps(m, launch.value, now); }
    }
  }

  lemma StampedRow(j: Job, k: Job)
    requires Stamped(j) && k.containers == j.containers && (StartedAt in j.row.cols ==> StartedAt in k.row.cols)
    ensures Stamped(k)
  {
  }

  lemma NextStamps(w: World, e: SystemEvent, v: World, id: string)
    requires Next(w, e, v) && id in v.jobs && (id in w.jobs ==> Stamped(w.jobs[id]))
    ensures Stamped(v.jobs[id])
  {
    hide WorkerEnabled, ControllerEnabled, WorkerDo, ControllerDo;
    if e.Work? && e.id == id {
      WorkerLeavesRow(w.jobs[id], e.container, e.step);
      WorkerContainers(w.jobs[id], e.container, e.step);
    } else if e.Control? && e.id == id {
      ControllerStamps(w.jobs[id], e.cstep);
    }
  }

  lemma WorkerContainers(j: Job, c: nat, s: WorkerStep)
    requires WorkerEnabled(j, c, s)
    ensures |WorkerDo(j, c, s).containers| == |j.containers|
  {
    hide Boot, Advance, Tick, Done, Render;
  }

  /** In every state of every run a job that was ever launched has started_at set. */
  lemma {:induction false} StartedStamped(ws: seq<World>, es: seq<SystemEvent>, i: nat, id: string)
    requires Execution(ws, es) && i < |ws| && id in ws[i].jobs
    ensures ws[i].jobs[id].containers != [] ==> StartedAt in ws[i].jobs[id].row.cols
  {
    hide Next;
    if i == 0 {
    } else {
      StepOf(ws, es, i - 1);
      if id in ws[i - 1].jobs { StartedStamped(ws, es, i - 1, id); }
      NextStamps(ws[i - 1], es[i - 1], ws[i], id);
    }
  }

  /** A cancellation takes every unfinished job to cancelled, for good, and leaves a finished one as it is. */
  lemma CancelIsFinal(ws: seq<World>, es: seq<SystemEvent>, id: string, now: int)
    requires Execution(ws, es) && es != [] && Last(es) == Control(id, CancelJob(now))
    ensures |ws| >= 2 && id in ws[|ws| - 2].jobs && id in Last(ws).jobs
    ensures var r := ws[|ws| - 2].jobs[id].row; var r' := Last(ws).jobs[id].row;
            && (if IsTerminal(r.state) && r.state != Cancelled then r' == r else MovedRow(r, r', Cancelled, map[], now))
            && (CanComplete(ws, es, id) <==> r.state == Completed)
  {
    hide CanComplete, Next, ControllerDo, ControllerEnabled;
    var n := |es| - 1;
    RowStep(ws, es, n, id);
    CancelRow(ws[n].jobs[id], now);
    RecoverableIff(ws, es, id);
  }

  // ---------------------------------------------------------------- results

  /** For a completed matrix job the file holds the sum of all cells of A x B modulo 2^64. */
  lemma CompletedMatMul(ws: seq<World>, es: seq<SystemEvent>, i: nat, id: string)
    requires Execution(ws, es) && i < |ws| && id in ws[i].jobs
    requires var j := ws[i].jobs[id];
             j.row.state == Completed && j.args.worker == MatMulWorker && j.args.limit < TWO32
    ensures var j := ws[i].jobs[id]; var n := j.args.limit;
            && OnDisk(j.args, j.disk).Some? && OnDisk(j.args, j.disk).value.MatMulState?
            && OnDisk(j.args, j.disk).value.m.nextCell == n * n
            && OnDisk(j.args, j.disk).value.m.fingerprint == Wrap(MatMul.SumOfProducts(j.args.seed, n, n, n, n))
  {
    hide Execution, OnTrack, Render, Load, Matches, MatMul.SumOfProducts, MatMul.SumCells;
    var j := ws[i].jobs[id];
    JobSound(ws, es, i, id);
    LoadRender(j.args, Final(j.args));
    MatMul.FingerprintMeaning(j.args.limit, j.args.seed);
    MatMul.CoversMatrixIff(j.args.limit);
  }

  /** For a completed word count the file holds, for every word, at how many positions of the corpus it stands. */
  lemma CompletedWordCount(ws: seq<World>, es: seq<SystemEvent>, i: nat, id: string, w: u32)
    requires Execution(ws, es) && i < |ws| && id in ws[i].jobs
    requires ws[i].jobs[id].row.state == Completed && ws[i].jobs[id].args.worker == WordCountWorker
    ensures var j := ws[i].jobs[id];
            && OnDisk(j.args, j.disk).Some? && OnDisk(j.args, j.disk).value.WordCountState?
            && WordCount.Count(OnDisk(j.args, j.disk).value.w.counts, w)
               == |set p: nat | p < j.args.limit && WordCount.WordAt(j.args.seed, p) == w|
  {
    hide Execution, OnTrack, Render, Load, Matches, WordCount.WordAt, WordCount.Occurrences;
    var j := ws[i].jobs[id];
    JobSound(ws, es, i, id);
    LoadRender(j.args, Final(j.args));
    WordCount.OccurrencesMeaning(j.args.seed, w, j.args.limit);
    WordCount.CountMeaning(j.args.seed, w, j.args.limit);
  }
}

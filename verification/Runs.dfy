/** Extending runs of the transition system: what can always still be reached from a reachable state, and what
    can no longer be. */
module Runs {
  import opened Words
  import opened Workers
  import opened Store
  import opened JobSystem
  import opened Guarantees

  // ---------------------------------------------------------------- extending a run

  /** The run vs, fs begins with the run ws, es. */
  ghost predicate Extends(ws: seq<World>, es: seq<SystemEvent>, vs: seq<World>, fs: seq<SystemEvent>) {
    Execution(vs, fs) && ws <= vs && es <= fs
  }

  lemma Extend(ws: seq<World>, es: seq<SystemEvent>, e: SystemEvent, v: World)
    requires Execution(ws, es) && Next(Last(ws), e, v)
    ensures Extends(ws, es, ws + [v], es + [e]) && Last(ws + [v]) == v
  {
    hide Next;
    var vs, fs := ws + [v], es + [e];
    forall i | 0 <= i < |fs| ensures Next(vs[i], fs[i], vs[i + 1]) {
      if i < |es| { assert Next(ws[i], es[i], ws[i + 1]); }
    }
  }

  /** The last world of a run with job id replaced. */
  function With(w: World, id: string, j: Job): World {
    w.(jobs := w.jobs[id := j])
  }

  lemma WithTwice(w: World, id: string, j: Job, k: Job)
    ensures With(With(w, id, j), id, k) == With(w, id, k)
  {
    assert w.jobs[id := j][id := k] == w.jobs[id := k];
  }

  lemma ExtendWork(ws: seq<World>, es: seq<SystemEvent>, id: string, c: nat, s: WorkerStep)
    returns (vs: seq<World>, fs: seq<SystemEvent>)
    requires Execution(ws, es) && id in Last(ws).jobs && WorkerEnabled(Last(ws).jobs[id], c, s)
    ensures Extends(ws, es, vs, fs) && Last(vs) == With(Last(ws), id, WorkerDo(Last(ws).jobs[id], c, s))
  {
    hide WorkerEnabled, WorkerDo;
    var v := With(Last(ws), id, WorkerDo(Last(ws).jobs[id], c, s));
    Extend(ws, es, Work(id, c, s), v);
    vs, fs := ws + [v], es + [Work(id, c, s)];
  }

  lemma ExtendControl(ws: seq<World>, es: seq<SystemEvent>, id: string, s: ControllerStep)
    returns (vs: seq<World>, fs: seq<SystemEvent>)
    requires Execution(ws, es) && Last(ws).up && id in Last(ws).jobs && ControllerEnabled(Last(ws).jobs[id], s)
    ensures Extends(ws, es, vs, fs) && Last(vs) == With(Last(ws), id, ControllerDo(Last(ws).jobs[id], s))
  {
    hide ControllerEnabled, ControllerDo;
    var v := With(Last(ws), id, ControllerDo(Last(ws).jobs[id], s));
    Extend(ws, es, Control(id, s), v);
    vs, fs := ws + [v], es + [Control(id, s)];
  }

  /** The moves of one job are steps of the system as long as the controller is up. */
  lemma {:induction false} LiftMoves(ws: seq<World>, es: seq<SystemEvent>, id: string, ms: seq<Move>, k: Job)
    returns (vs: seq<World>, fs: seq<SystemEvent>)
    requires Execution(ws, es) && Last(ws).up && id in Last(ws).jobs && Leads(Last(ws).jobs[id], ms, k)
    ensures Extends(ws, es, vs, fs) && Last(vs) == With(Last(ws), id, k)
    decreases |ms|
  {
    hide Next, WorkerEnabled, WorkerDo, ControllerEnabled, ControllerDo;
    if ms == [] {
      vs, fs := ws, es;
      assert With(Last(ws), id, k).jobs == Last(ws).jobs;
    } else {
      match ms[0] {
        case ByWorker(c, s) => vs, fs := ExtendWork(ws, es, id, c, s);
        case ByController(s) => vs, fs := ExtendControl(ws, es, id, s);
      }
      WithTwice(Last(ws), id, Last(vs).jobs[id], k);
      vs, fs := LiftMoves(vs, fs, id, ms[1..], k);
    }
  }

  lemma EmptyRun()
    ensures Execution([World(true, map[])], [])
  {
  }

  /** A run that has just created one job. */
  lemma CreatedRun(id: string, a: Args, now: int) returns (ws: seq<World>, es: seq<SystemEvent>)
    requires Supported(a)
    ensures Execution(ws, es) && Last(ws) == World(true, map[id := NewJob(a, now)])
  {
    hide NewJob, Supported;
    EmptyRun();
    var w, v := World(true, map[]), World(true, map[id := NewJob(a, now)]);
    Extend([w], [], SystemEvent.Create(id, a, now), v);
    ws, es := [w] + [v], [] + [SystemEvent.Create(id, a, now)];
  }

  // ---------------------------------------------------------------- restarting the controller

  /** What a successful listing says about a job: its newest container if it is running. */
  function ListingOf(j: Job): Option<Listed> {
    if j.containers != [] && Last(j.containers).proc.Alive? then Some(Listed(|j.containers| - 1, true, false)) else None
  }

  lemma ListingTrue(j: Job)
    requires JobInv(j)
    ensures TrueListing(j, ListingOf(j))
  {
    hide Supported, FileSound, RecordSound, RowSound, ControlSound, LogSound, LastSound;
  }

  lemma Restart(ws: seq<World>, es: seq<SystemEvent>) returns (vs: seq<World>, fs: seq<SystemEvent>)
    requires Execution(ws, es) && !Last(ws).up
    ensures Extends(ws, es, vs, fs) && Last(vs).up && Last(vs).jobs.Keys == Last(ws).jobs.Keys
    ensures forall id :: id in Last(ws).jobs ==>
              Last(vs).jobs[id] == Last(ws).jobs[id].(scan := Some(ListingOf(Last(ws).jobs[id])))
  {
    hide ListingOf, JobInv, TrueListing;
    var w := Last(ws);
    var ls := map id | id in w.jobs :: ListingOf(w.jobs[id]);
    var v := World(true, map id | id in w.jobs :: w.jobs[id].(scan := Some(ls[id])));
    forall id | id in w.jobs ensures TrueListing(w.jobs[id], ls[id]) {
      LastSoundJob(ws, es, id);
      ListingTrue(w.jobs[id]);
    }
    Extend(ws, es, ControllerRestart(ls), v);
    vs, fs := ws + [v], es + [ControllerRestart(ls)];
  }

  lemma LastSoundJob(ws: seq<World>, es: seq<SystemEvent>, id: string)
    requires Execution(ws, es) && id in Last(ws).jobs
    ensures JobInv(Last(ws).jobs[id])
  {
    hide JobInv;
    JobSound(ws, es, |ws| - 1, id);
  }

  lemma Crash(ws: seq<World>, es: seq<SystemEvent>) returns (vs: seq<World>, fs: seq<SystemEvent>)
    requires Execution(ws, es) && Last(ws).up
    ensures Extends(ws, es, vs, fs) && !Last(vs).up && Last(vs).jobs.Keys == Last(ws).jobs.Keys
    ensures forall id :: id in Last(ws).jobs ==> Last(vs).jobs[id] == Forgotten(Last(ws).jobs[id])
  {
    var w := Last(ws);
    var v := World(false, map id | id in w.jobs :: Forgotten(w.jobs[id]));
    Extend(ws, es, ControllerCrash, v);
    vs, fs := ws + [v], es + [ControllerCrash];
  }

  /** Whatever it was doing, the controller can die and come back: every job is scanned against a fresh
      listing. */
  lemma Reboot(ws: seq<World>, es: seq<SystemEvent>) returns (vs: seq<World>, fs: seq<SystemEvent>)
    requires Execution(ws, es)
    ensures Extends(ws, es, vs, fs) && Last(vs).up && Last(vs).jobs.Keys == Last(ws).jobs.Keys
    ensures forall id :: id in Last(ws).jobs ==>
              Last(vs).jobs[id] == Forgotten(Last(ws).jobs[id]).(scan := Some(ListingOf(Last(ws).jobs[id])))
  {
    hide Next, ListingOf;
    vs, fs := ws, es;
    if Last(ws).up { vs, fs := Crash(ws, es); } else { DownIsQuiet(ws, es); }
    var w := Last(vs);
    vs, fs := Restart(vs, fs);
    forall id | id in w.jobs ensures ListingOf(w.jobs[id]) == ListingOf(Last(ws).jobs[id]) {
      SameListing(w.jobs[id], Last(ws).jobs[id]);
    }
  }

  lemma SameListing(j: Job, k: Job)
    requires j.containers == k.containers
    ensures ListingOf(j) == ListingOf(k)
  {
  }

  lemma DownIsQuiet(ws: seq<World>, es: seq<SystemEvent>)
    requires Execution(ws, es) && !Last(ws).up
    ensures forall id :: id in Last(ws).jobs ==> Last(ws).jobs[id] == Forgotten(Last(ws).jobs[id])
  {
    hide JobInv, Next, Forgotten;
    RunsSound(ws, es, |ws| - 1);
  }

  lemma OnlyUpStarts(ws: seq<World>, es: seq<SystemEvent>, id: string)
    requires Execution(ws, es) && id in Last(ws).jobs && Last(ws).jobs[id].starting
    ensures Last(ws).up
  {
    hide Next;
    if !Last(ws).up { DownIsQuiet(ws, es); }
  }

  // ---------------------------------------------------------------- driving a job to its end

  predicate Active(s: JobState) {
    s == Running || s == Checkpointing
  }

  /** The job with arguments a is completed and has the bytes of an uninterrupted run on disk. */
  ghost predicate Finished(w: World, id: string, a: Args) {
    && id in w.jobs && w.jobs[id].row.state == Completed && w.jobs[id].args == a
    && Supported(a) && w.jobs[id].disk.main == Some(UninterruptedFile(a))
  }

  lemma CompletedIsFinished(ws: seq<World>, es: seq<SystemEvent>, id: string)
    requires Execution(ws, es) && id in Last(ws).jobs && Last(ws).jobs[id].row.state == Completed
    ensures Finished(Last(ws), id, Last(ws).jobs[id].args)
  {
    hide Next, UninterruptedFile, Supported;
    CrashTransparency(ws, es, |ws| - 1, id);
  }

  /** A live worker with a reader runs to its end. */
  lemma FinishWatched(ws: seq<World>, es: seq<SystemEvent>, id: string, now: int)
    returns (vs: seq<World>, fs: seq<SystemEvent>)
    requires Execution(ws, es) && Last(ws).up && id in Last(ws).jobs
    requires var j := Last(ws).jobs[id];
             && Active(j.row.state) && j.stream.Some? && j.stream.value.cid < |j.containers|
             && j.containers[j.stream.value.cid].proc.Alive?
    ensures Extends(ws, es, vs, fs) && Finished(Last(vs), id, Last(ws).jobs[id].args)
  {
    hide Next, Leads, JobInv, ControllerDo, ControllerEnabled, Finished;
    var j := Last(ws).jobs[id];
    LastSoundJob(ws, es, id);
    var ms, k := WorkerCanFinish(j, j.stream.value.cid);
    LeadsArgs(j, ms, k);
    vs, fs := LiftMoves(ws, es, id, ms, k);
    EndCompletes(k, now);
    vs, fs := ExtendControl(vs, fs, id, StreamEnds(true, now));
    CompletedIsFinished(vs, fs, id);
  }

  lemma EndCompletes(j: Job, now: int)
    requires j.stream.Some? && j.stream.value.cid < |j.containers| && Active(j.row.state)
    requires j.containers[j.stream.value.cid].proc.Exited?
    requires j.containers[j.stream.value.cid].proc.code == 0 || j.stream.value.sawCompleted
    ensures ControllerEnabled(j, StreamEnds(true, now))
    ensures var k := ControllerDo(j, StreamEnds(true, now)); k.row.state == Completed && k.args == j.args
  {
  }

  lemma {:induction false} LeadsArgs(j: Job, ms: seq<Move>, k: Job)
    requires Leads(j, ms, k)
    ensures k.args == j.args
    decreases |ms|
  {
    hide WorkerEnabled, WorkerDo, ControllerEnabled, ControllerDo;
    if ms == [] {
    } else {
      match ms[0]
      case ByWorker(c, s) =>
        WorkerArgs(j, c, s);
        LeadsArgs(WorkerDo(j, c, s), ms[1..], k);
      case ByController(s) =>
        ControllerArgs(j, s);
        LeadsArgs(ControllerDo(j, s), ms[1..], k);
    }
  }

  lemma WorkerArgs(j: Job, c: nat, s: WorkerStep)
    requires WorkerEnabled(j, c, s)
    ensures WorkerDo(j, c, s).args == j.args
  {
    hide Boot, Advance, Tick, Done, Render;
  }

  lemma ControllerArgs(j: Job, s: ControllerStep)
    requires ControllerEnabled(j, s)
    ensures ControllerDo(j, s).args == j.args
  {
    hide Moved, Decision;
  }

  /** The creating request starts its job. */
  lemma StartAndFinish(ws: seq<World>, es: seq<SystemEvent>, id: string, self: Starter, now: int)
    returns (vs: seq<World>, fs: seq<SystemEvent>)
    requires Execution(ws, es) && id in Last(ws).jobs
    requires Last(ws).jobs[id].row.state == Pending && Last(ws).jobs[id].starting
    ensures Extends(ws, es, vs, fs) && Finished(Last(vs), id, Last(ws).jobs[id].args)
  {
    hide Next, Finished, ControllerDo, ControllerEnabled, JobInv;
    var j := Last(ws).jobs[id];
    OnlyUpStarts(ws, es, id);
    LastSoundJob(ws, es, id);
    StartingUnscanned(j);
    LaunchRuns(j, self, now);
    vs, fs := ExtendControl(ws, es, id, Launch(self, now));
    vs, fs := FinishWatched(vs, fs, id, now);
  }

  /** What a successful launch leaves. */
  ghost predicate JustLaunched(j: Job, k: Job) {
    && k.args == j.args && k.row.state == Running && k.disk == j.disk && k.scan.None?
    && |k.containers| == |j.containers| + 1 && k.stream == Some(Stream(|j.containers|, 0, false))
    && k.containers[|j.containers|].proc.Alive?
  }

  lemma LaunchRuns(j: Job, self: Starter, now: int)
    requires j.row.state == Pending && j.starting && j.scan.None?
    ensures ControllerEnabled(j, Launch(self, now)) && JustLaunched(j, ControllerDo(j, Launch(self, now)))
  {
    hide LaunchColumns;
  }

  /** A scan that may launch resumes an interrupted_resumable row, and a running one that has a checkpoint but
      no running container. */
  lemma ScanResumes(j: Job, self: Starter, now: int)
    requires j.scan == Some(None)
    requires j.row.state == InterruptedResumable || (Active(j.row.state) && HasCheckpoint(j.row))
    ensures ControllerEnabled(j, ScanRow(Some(self), now))
    ensures JustLaunched(j, ControllerDo(j, ScanRow(Some(self), now)))
  {
    hide LaunchColumns;
  }

  /** A dead worker with a recorded checkpoint is resumed by the next controller. */
  lemma ResumeAndFinish(ws: seq<World>, es: seq<SystemEvent>, id: string, self: Starter, now: int)
    returns (vs: seq<World>, fs: seq<SystemEvent>)
    requires Execution(ws, es) && id in Last(ws).jobs
    requires var j := Last(ws).jobs[id];
             j.row.state == InterruptedResumable || (Active(j.row.state) && HasCheckpoint(j.row) && NoneAlive(j))
    ensures Extends(ws, es, vs, fs) && Finished(Last(vs), id, Last(ws).jobs[id].args)
  {
    hide Next, Finished, ControllerDo, ControllerEnabled, HasCheckpoint, JobInv;
    LastSoundJob(ws, es, id);
    OnlyLastAlive(Last(ws).jobs[id]);
    vs, fs := Reboot(ws, es);
    ScanResumes(Last(vs).jobs[id], self, now);
    vs, fs := ExtendControl(vs, fs, id, ScanRow(Some(self), now));
    vs, fs := FinishWatched(vs, fs, id, now);
  }

  /** A live worker is adopted by the next controller and runs to its end. */
  lemma AdoptAndFinish(ws: seq<World>, es: seq<SystemEvent>, id: string, now: int)
    returns (vs: seq<World>, fs: seq<SystemEvent>)
    requires Execution(ws, es) && id in Last(ws).jobs
    requires Active(Last(ws).jobs[id].row.state) && !NoneAlive(Last(ws).jobs[id])
    ensures Extends(ws, es, vs, fs) && Finished(Last(vs), id, Last(ws).jobs[id].args)
  {
    hide Next, Finished, ControllerDo, ControllerEnabled, JobInv, NoneAlive;
    LastSoundJob(ws, es, id);
    OnlyLastAlive(Last(ws).jobs[id]);
    vs, fs := Reboot(ws, es);
    ScanAdopts(Last(vs).jobs[id], now);
    vs, fs := ExtendControl(vs, fs, id, ScanRow(None, now));
    vs, fs := FinishWatched(vs, fs, id, now);
  }

  /** The scan of this job is about to attach to a container that ran when it was listed. */
  predicate Adopting(j: Job) {
    j.scan.Some? && j.scan.value.Some? && j.scan.value.value.running && !j.scan.value.value.samePid
  }

  lemma ScanAdopts(j: Job, now: int)
    requires Active(j.row.state) && Adopting(j)
    ensures ControllerEnabled(j, ScanRow(None, now))
    ensures ControllerDo(j, ScanRow(None, now)) ==
            j.(scan := None, stream := Some(Stream(j.scan.value.value.cid, 0, false)))
  {
  }

  // ---------------------------------------------------------------- what a reader still finds

  /** A line that brings a reader's job forward: a decodable checkpoint, or the completion. */
  predicate Useful(l: Line) {
    l.CompletedLine? || Decodes(l)
  }

  /** A reader at line pos of a dead worker's log will learn of its completion or of a checkpoint. */
  predicate Promising(c: Container, pos: nat, sawCompleted: bool) {
    c.proc == Exited(0) || sawCompleted || exists i :: pos <= i < |c.log| && Useful(c.log[i])
  }

  /** Reading the rest of a promising log either completes the job or records a checkpoint to resume from. */
  lemma ReadAndFinish(ws: seq<World>, es: seq<SystemEvent>, id: string, self: Starter, now: int)
    returns (vs: seq<World>, fs: seq<SystemEvent>)
    requires Execution(ws, es) && Last(ws).up && id in Last(ws).jobs
    requires var j := Last(ws).jobs[id];
             && Active(j.row.state) && NoneAlive(j) && j.stream.Some? && j.stream.value.cid < |j.containers|
             && j.stream.value.pos <= |j.containers[j.stream.value.cid].log|
             && Promising(j.containers[j.stream.value.cid], j.stream.value.pos, j.stream.value.sawCompleted)
    ensures Extends(ws, es, vs, fs) && Finished(Last(vs), id, Last(ws).jobs[id].args)
  {
    hide Next, Finished, ControllerDo, ControllerEnabled, Leads, Recorded, HasCheckpoint, Useful;
    var j := Last(ws).jobs[id];
    var c, st := j.containers[j.stream.value.cid], j.stream.value;
    var log := c.log[st.pos..];
    var stored, clock := seq(|log|, _ => true), seq(|log|, _ => now);
    var ms, k := DrainLog(j, log, stored, clock);
    vs, fs := LiftMoves(ws, es, id, ms, k);
    RecordedState(j.row, log, stored, clock);
    if c.proc == Exited(0) || st.sawCompleted || CompletedLine in log {
      EndCompletes(k, now);
      vs, fs := ExtendControl(vs, fs, id, StreamEnds(true, now));
      CompletedIsFinished(vs, fs, id);
    } else {
      var i :| st.pos <= i < |c.log| && Useful(c.log[i]);
      UsefulRecorded(j.row, log, stored, clock, i - st.pos);
      vs, fs := ResumeAndFinish(vs, fs, id, self, now);
    }
  }

  lemma RecordedState(row: Row, log: seq<Line>, stored: seq<bool>, clock: seq<int>)
    requires |stored| == |log| == |clock|
    ensures Recorded(row, log, stored, clock).state == row.state
  {
  }

  lemma UsefulRecorded(row: Row, log: seq<Line>, stored: seq<bool>, clock: seq<int>, i: nat)
    requires |stored| == |log| == |clock| && i < |log|
    requires stored[i] && Useful(log[i]) && CompletedLine !in log
    ensures HasCheckpoint(Recorded(row, log, stored, clock))
  {
  }

  // ---------------------------------------------------------------- which jobs can still complete

  /** The job has a reader, or is about to get one, that is promising. */
  predicate ReaderPromising(j: Job) {
    || (j.stream.Some? && j.stream.value.cid < |j.containers|
        && Promising(j.containers[j.stream.value.cid], j.stream.value.pos, j.stream.value.sawCompleted))
    || (Adopting(j) && j.scan.value.value.cid < |j.containers|
        && Promising(j.containers[j.scan.value.value.cid], 0, false))
  }

  /** A job that some continuation can still bring to completed: it is completed; it is pending and its
      creating request is still about to start it; it is interrupted_resumable; or it is running with a
      recorded checkpoint, a live worker or a promising reader. */
  predicate Recoverable(j: Job) {
    || j.row.state == Completed
    || (j.row.state == Pending && j.starting)
    || j.row.state == InterruptedResumable
    || (Active(j.row.state) && (HasCheckpoint(j.row) || !NoneAlive(j) || ReaderPromising(j)))
  }

  /** Recoverability: every run extends, from any moment at which a job is recoverable and with the controller
      up or down, to a run at whose end that job is completed and has on disk the bytes of an uninterrupted
      run. */
  lemma AlwaysRecoverable(ws: seq<World>, es: seq<SystemEvent>, id: string, self: Starter, now: int)
    returns (vs: seq<World>, fs: seq<SystemEvent>)
    requires Execution(ws, es) && id in Last(ws).jobs && Recoverable(Last(ws).jobs[id])
    ensures Extends(ws, es, vs, fs) && Finished(Last(vs), id, Last(ws).jobs[id].args)
  {
    hide Next, Finished, HasCheckpoint, NoneAlive, ReaderPromising;
    var j := Last(ws).jobs[id];
    if j.row.state == Completed {
      vs, fs := ws, es;
      CompletedIsFinished(ws, es, id);
    } else if j.row.state == Pending {
      vs, fs := StartAndFinish(ws, es, id, self, now);
    } else if !NoneAlive(j) && Active(j.row.state) {
      vs, fs := AdoptAndFinish(ws, es, id, now);
    } else if j.row.state == InterruptedResumable || HasCheckpoint(j.row) {
      vs, fs := ResumeAndFinish(ws, es, id, self, now);
    } else {
      vs, fs := ReaderFinishes(ws, es, id, self, now);
    }
  }

  lemma ReaderFinishes(ws: seq<World>, es: seq<SystemEvent>, id: string, self: Starter, now: int)
    returns (vs: seq<World>, fs: seq<SystemEvent>)
    requires Execution(ws, es) && id in Last(ws).jobs
    requires var j := Last(ws).jobs[id]; Active(j.row.state) && NoneAlive(j) && ReaderPromising(j)
    ensures Extends(ws, es, vs, fs) && Finished(Last(vs), id, Last(ws).jobs[id].args)
  {
    hide Next, Finished, NoneAlive, Promising, JobInv, ControllerDo, ControllerEnabled;
    var j := Last(ws).jobs[id];
    if !Last(ws).up { DownIsQuiet(ws, es); }
    LastSoundJob(ws, es, id);
    ReaderInLog(j);
    vs, fs := ws, es;
    if j.stream.None? {
      ScanAdopts(j, now);
      vs, fs := ExtendControl(ws, es, id, ScanRow(None, now));
      SameAlive(j, Last(vs).jobs[id]);
    }
    vs, fs := ReadAndFinish(vs, fs, id, self, now);
  }

  lemma ReaderInLog(j: Job)
    requires JobInv(j)
    ensures j.stream.Some? ==>
              j.stream.value.cid < |j.containers| && j.stream.value.pos <= |j.containers[j.stream.value.cid].log|
    ensures j.stream.Some? ==> j.scan.None?
  {
    hide Supported, FileSound, RecordSound, ContainersSound, RowSound;
  }

  lemma SameAlive(j: Job, k: Job)
    requires j.containers == k.containers
    ensures NoneAlive(j) == NoneAlive(k)
  {
  }

  // ---------------------------------------------------------------- what can no longer complete

  /** No continuation completes the job. */
  predicate Lost(j: Job) {
    || (IsTerminal(j.row.state) && j.row.state != Completed)
    || (j.row.state == Pending && !j.starting && j.containers == [] && j.stream.None?)
    || (Active(j.row.state) && !HasCheckpoint(j.row) && NoneAlive(j) && !ReaderPromising(j) && !j.starting)
  }

  lemma LostWorker(j: Job, c: nat, s: WorkerStep)
    requires Lost(j) && WorkerEnabled(j, c, s)
    ensures Lost(WorkerDo(j, c, s))
  {
    hide Boot, Advance, Tick, Done, Render, ReaderPromising;
    assert j.containers[c].proc.Alive?;
  }

  lemma LostController(j: Job, s: ControllerStep)
    requires Lost(j) && ControllerEnabled(j, s) && (j.stream.Some? ==> j.scan.None?)
    ensures Lost(ControllerDo(j, s))
  {
    if IsTerminal(j.row.state) {
      TerminalStays(j, s);
    } else if j.row.state == Pending {
      hide ReaderPromising;
    } else {
      LostReader(j, s);
    }
  }

  /** A reader that is not promising leads nowhere, and neither does the scan. */
  lemma LostReader(j: Job, s: ControllerStep)
    requires Active(j.row.state) && !HasCheckpoint(j.row) && NoneAlive(j) && !ReaderPromising(j) && !j.starting
    requires ControllerEnabled(j, s) && (j.stream.Some? ==> j.scan.None?)
    ensures Lost(ControllerDo(j, s))
  {
    match s
    case ReadLine(_, _) => LostRead(j, s);
    case StreamEnds(_, _) =>
    case StreamLost(_) =>
    case CancelJob(_) =>
    case MarkInterrupted(_) =>
    case ScanRow(_, _) =>
  }

  lemma LostRead(j: Job, s: ControllerStep)
    requires Active(j.row.state) && !HasCheckpoint(j.row) && NoneAlive(j) && !ReaderPromising(j) && !j.starting
    requires s.ReadLine? && ControllerEnabled(j, s) && j.scan.None?
    ensures Lost(ControllerDo(j, s))
  {
    var st := j.stream.value;
    assert !Useful(j.containers[st.cid].log[st.pos]);
  }

  lemma TerminalStays(j: Job, s: ControllerStep)
    requires IsTerminal(j.row.state) && ControllerEnabled(j, s)
    ensures ControllerDo(j, s).row.state == j.row.state
  {
    hide Decodes, LaunchColumns;
  }

  lemma LostNext(w: World, e: SystemEvent, v: World, id: string)
    requires Next(w, e, v) && id in w.jobs && Lost(w.jobs[id]) && (w.jobs[id].stream.Some? ==> w.jobs[id].scan.None?)
    ensures id in v.jobs && Lost(v.jobs[id])
  {
    hide ControllerEnabled, ControllerDo, WorkerEnabled, WorkerDo, HasCheckpoint, Promising;
    if e.Work? && e.id == id {
      LostWorker(w.jobs[id], e.container, e.step);
    } else if e.Control? && e.id == id {
      LostController(w.jobs[id], e.cstep);
    } else if e.ControllerRestart? {
      LostRestart(w.jobs[id], e.listings[id]);
    }
  }

  /** A true listing shows a dead worker as not running. */
  lemma LostRestart(j: Job, l: Option<Listed>)
    requires Lost(j) && TrueListing(j, l)
    ensures Lost(j.(scan := Some(l)))
  {
    hide HasCheckpoint, Promising;
  }

  lemma {:induction false} LostForever(vs: seq<World>, fs: seq<SystemEvent>, m: nat, i: nat, id: string)
    requires Execution(vs, fs) && m <= i < |vs| && id in vs[m].jobs && Lost(vs[m].jobs[id])
    ensures id in vs[i].jobs && Lost(vs[i].jobs[id])
    decreases i
  {
    hide Next, Lost, JobInv;
    if i == m {
    } else {
      LostForever(vs, fs, m, i - 1, id);
      JobSound(vs, fs, i - 1, id);
      ReaderInLog(vs[i - 1].jobs[id]);
      LostNext(vs[i - 1], fs[i - 1], vs[i], id);
    }
  }

  /** The run has a continuation at whose end job id is completed. */
  ghost predicate CanComplete(ws: seq<World>, es: seq<SystemEvent>, id: string) {
    exists vs, fs :: Extends(ws, es, vs, fs) && CompletedAtEnd(vs, id)
  }

  ghost predicate CompletedAtEnd(vs: seq<World>, id: string) {
    vs != [] && id in Last(vs).jobs && Last(vs).jobs[id].row.state == Completed
  }

  /** Exactly which jobs can still complete: at any moment of any run, whatever has crashed, a job has a
      continuation that completes it if and only if it is recoverable. */
  lemma RecoverableIff(ws: seq<World>, es: seq<SystemEvent>, id: string)
    requires Execution(ws, es) && id in Last(ws).jobs
    ensures CanComplete(ws, es, id) <==> Recoverable(Last(ws).jobs[id])
  {
    hide Next, Recoverable, Lost, JobInv, Supported, UninterruptedFile;
    var j := Last(ws).jobs[id];
    if Recoverable(j) {
      var vs, fs := AlwaysRecoverable(ws, es, id, Starter(0, "", ""), 0);
      assert Extends(ws, es, vs, fs) && CompletedAtEnd(vs, id);
    } else {
      LastSoundJob(ws, es, id);
      OtherwiseLost(j);
      forall vs, fs | Extends(ws, es, vs, fs) ensures !CompletedAtEnd(vs, id) {
        LostForever(vs, fs, |ws| - 1, |vs| - 1, id);
        LostIncomplete(Last(vs).jobs[id]);
      }
    }
  }

  lemma OtherwiseLost(j: Job)
    requires JobInv(j) && !Recoverable(j)
    ensures Lost(j)
  {
    hide Supported, FileSound, RecordSound, ContainersSound, FinalOnDisk, HasCheckpoint, ReaderPromising;
  }

  lemma LostIncomplete(j: Job)
    requires Lost(j)
    ensures j.row.state != Completed
  {
  }

  /** Every supported job has a run that completes it. */
  lemma EveryJobCanComplete(id: string, a: Args, self: Starter, now: int) returns (vs: seq<World>, fs: seq<SystemEvent>)
    requires Supported(a)
    ensures Execution(vs, fs) && Finished(Last(vs), id, a)
  {
    hide Next, Finished, Supported;
    var ws, es := CreatedRun(id, a, now);
    vs, fs := AlwaysRecoverable(ws, es, id, self, now);
  }
}

/** How jobs are lost: starts that never happen, workers that die while watched, work that is given up, and a
    failed listing; each with its exact condition and a run that gets there. */
module Failures {
  import opened Words
  import opened Workers
  import opened Store
  import opened JobSystem
  import opened Guarantees
  import opened Runs
  import Recovery
  import MatMul

  // ---------------------------------------------------------------- starts that never happen

  /** A job that is pending while the controller is down never completes: only the request that created it
      would have started it, and the scan leaves pending rows alone. */
  lemma PendingAtCrash(ws: seq<World>, es: seq<SystemEvent>, id: string)
    requires Execution(ws, es) && !Last(ws).up && id in Last(ws).jobs && Last(ws).jobs[id].row.state == Pending
    ensures !CanComplete(ws, es, id)
  {
    hide Next, CanComplete;
    DownIsQuiet(ws, es);
    RecoverableIff(ws, es, id);
  }

  /** Every job can end so: a crash right after its creation leaves it pending for ever. */
  lemma OrphanedByCrash(id: string, a: Args, now: int) returns (vs: seq<World>, fs: seq<SystemEvent>)
    requires Supported(a)
    ensures Execution(vs, fs) && id in Last(vs).jobs && Last(vs).jobs[id].args == a
    ensures Last(vs).jobs[id].row.state == Pending && !CanComplete(vs, fs, id)
  {
    hide Next, CanComplete, Supported;
    var ws, es := CreatedRun(id, a, now);
    vs, fs := Crash(ws, es);
    PendingAtCrash(vs, fs, id);
  }

  /** So does a job created at a controller that does not lead, without any crash. */
  lemma OrphanedByFollower(id: string, a: Args, now: int) returns (vs: seq<World>, fs: seq<SystemEvent>)
    requires Supported(a)
    ensures Execution(vs, fs) && Last(vs).up && id in Last(vs).jobs && Last(vs).jobs[id].args == a
    ensures Last(vs).jobs[id].row.state == Pending && !CanComplete(vs, fs, id)
  {
    hide Next, CanComplete, Supported;
    var ws, es := CreatedRun(id, a, now);
    vs, fs := ExtendControl(ws, es, id, StartRefused);
    RecoverableIff(vs, fs, id);
  }

  // ---------------------------------------------------------------- workers that die while watched

  /** When the log of a dead worker ends, its running job can still complete if and only if the exit code is 0
      or its completion line was read; otherwise it is failed for good, whatever is recorded or on disk. */
  lemma WatchedDeathIff(ws: seq<World>, es: seq<SystemEvent>, id: string)
    requires Execution(ws, es) && es != [] && Last(es).Control? && Last(es).id == id && Last(es).cstep.StreamEnds?
    requires |ws| >= 2 && id in ws[|ws| - 2].jobs && Active(ws[|ws| - 2].jobs[id].row.state)
    requires var j := ws[|ws| - 2].jobs[id];
             j.stream.Some? && j.stream.value.cid < |j.containers| && j.containers[j.stream.value.cid].proc.Exited?
    ensures id in Last(ws).jobs
    ensures var j := ws[|ws| - 2].jobs[id]; var good :=
              j.containers[j.stream.value.cid].proc.code == 0 || j.stream.value.sawCompleted;
            && (CanComplete(ws, es, id) <==> good)
            && (!good ==> Last(ws).jobs[id].row.state == Failed)
  {
    hide CanComplete, ControllerDo, ControllerEnabled;
    var n := |es| - 1;
    StepOf(ws, es, n);
    EndVerdict(ws[n].jobs[id], Last(es).cstep);
    RecoverableIff(ws, es, id);
  }

  lemma EndVerdict(j: Job, s: ControllerStep)
    requires s.StreamEnds? && ControllerEnabled(j, s) && Active(j.row.state)
    requires j.containers[j.stream.value.cid].proc.Exited?
    ensures ControllerDo(j, s).row.state ==
            if j.containers[j.stream.value.cid].proc.code == 0 || j.stream.value.sawCompleted then Completed else Failed
  {
  }

  /** A kill, by docker stop in a graceful shutdown or otherwise, loses a watched job: every run in which a live
      worker is watched and has not printed its completion extends to one that ends with the controller up, the
      row failed for good, the disk as it was and every checkpoint line recorded. Marking the job interrupted
      is not possible any more. */
  lemma KillLoses(ws: seq<World>, es: seq<SystemEvent>, id: string, code: int, now: int)
    returns (vs: seq<World>, fs: seq<SystemEvent>)
    requires Execution(ws, es) && Last(ws).up && id in Last(ws).jobs && Active(Last(ws).jobs[id].row.state)
    requires var j := Last(ws).jobs[id]; Watched(j) && !j.containers[j.stream.value.cid].proc.pc.Exiting? && code >= 128
    ensures Extends(ws, es, vs, fs) && Last(vs).up && id in Last(vs).jobs && !CanComplete(vs, fs, id)
    ensures var j := Last(ws).jobs[id]; var k := Last(vs).jobs[id];
            && k.row.state == Failed && k.disk == j.disk && k.args == j.args
            && !ControllerEnabled(k, MarkInterrupted(now))
            && (HasCheckpoint(j.row) || UsefulUnread(j) ==> HasCheckpoint(k.row))
  {
    hide Next, CanComplete, ControllerDo, Leads, Recorded, HasCheckpoint, Useful, JobInv, WorkerDo, WorkerEnabled;
    var j := Last(ws).jobs[id];
    var st := j.stream.value;
    LastSoundJob(ws, es, id);
    NotCompleted(j);
    var log := j.containers[st.cid].log[st.pos..];
    var m := KilledAt(j, st.cid, code);
    vs, fs := ExtendWork(ws, es, id, st.cid, Killed(code));
    var stored, clock := seq(|log|, _ => true), seq(|log|, _ => now);
    var ms, k := DrainLog(m, log, stored, clock);
    RecordedState(j.row, log, stored, clock);
    vs, fs := LiftMoves(vs, fs, id, ms, k);
    AllRecorded(j, log, stored, clock);
    EndFails(k, now);
    vs, fs := ExtendControl(vs, fs, id, StreamEnds(true, now));
    RecoverableIff(vs, fs, id);
  }

  predicate Watched(j: Job) {
    && j.stream.Some? && j.stream.value.cid < |j.containers| && j.containers[j.stream.value.cid].proc.Alive?
    && j.stream.value.pos <= |j.containers[j.stream.value.cid].log|
  }

  predicate UsefulUnread(j: Job)
    requires Watched(j)
  {
    exists i :: j.stream.value.pos <= i < |j.containers[j.stream.value.cid].log|
      && Useful(j.containers[j.stream.value.cid].log[i])
  }

  /** Before its end a worker has not printed the completion line, and nobody has read it. */
  lemma NotCompleted(j: Job)
    requires JobInv(j) && Watched(j) && !j.containers[j.stream.value.cid].proc.pc.Exiting?
    ensures CompletedLine !in j.containers[j.stream.value.cid].log && !j.stream.value.sawCompleted
  {
    hide Supported, FileSound, RecordSound, LogSound, PcSound, RowSound, FinalOnDisk;
  }

  lemma KilledAt(j: Job, c: nat, code: int) returns (m: Job)
    requires c < |j.containers| && j.containers[c].proc.Alive? && code >= 128
    ensures WorkerEnabled(j, c, Killed(code)) && m == WorkerDo(j, c, Killed(code))
    ensures m == j.(containers := m.containers) && |m.containers| == |j.containers|
    ensures m.containers[c] == j.containers[c].(proc := Exited(code))
  {
    m := WorkerDo(j, c, Killed(code));
  }

  lemma AllRecorded(j: Job, log: seq<Line>, stored: seq<bool>, clock: seq<int>)
    requires Watched(j) && log == j.containers[j.stream.value.cid].log[j.stream.value.pos..]
    requires CompletedLine !in log && |stored| == |log| == |clock| && forall i :: 0 <= i < |log| ==> stored[i]
    ensures HasCheckpoint(j.row) || UsefulUnread(j) ==> HasCheckpoint(Recorded(j.row, log, stored, clock))
  {
    hide Useful;
    if UsefulUnread(j) {
      var st := j.stream.value;
      var i :| st.pos <= i < |j.containers[st.cid].log| && Useful(j.containers[st.cid].log[i]);
      UsefulRecorded(j.row, log, stored, clock, i - st.pos);
    }
  }

  lemma EndFails(j: Job, now: int)
    requires j.stream.Some? && j.stream.value.cid < |j.containers| && Active(j.row.state)
    requires !j.stream.value.sawCompleted
    requires var p := j.containers[j.stream.value.cid].proc; p.Exited? && p.code != 0
    ensures ControllerEnabled(j, StreamEnds(true, now))
    ensures var k := ControllerDo(j, StreamEnds(true, now));
            && k.row.state == Failed && k.disk == j.disk && k.args == j.args
            && HasCheckpoint(k.row) == HasCheckpoint(j.row)
  {
  }

  /** Every supported job has a run in which its worker is killed while watched, its complete result is on disk,
      and the row is failed for good; the checkpoint is recorded too if the last line announced decodes. */
  lemma FinishedButFailed(id: string, a: Args, code: int, now: int)
    returns (vs: seq<World>, fs: seq<SystemEvent>, epoch: nat)
    requires Supported(a) && code >= 128
    ensures Execution(vs, fs) && Last(vs).up && id in Last(vs).jobs && !CanComplete(vs, fs, id)
    ensures var k := Last(vs).jobs[id];
            && k.args == a && k.row.state == Failed && k.disk.main == Some(UninterruptedFile(a))
            && (Decodes(CheckpointLine(epoch, Found(Final(a)), Cursor(Final(a)))) ==> HasCheckpoint(k.row))
  {
    hide Next, CanComplete, UninterruptedFile, Supported, JobInv, Leads, ControllerDo, ControllerEnabled, Final, Render,
      HasCheckpoint, Decodes, Found, Cursor, MatMul.Total, Done;
    var l;
    vs, fs, l := LaunchedRun(id, a, now);
    var ms, k, e := WorkerCanAnnounce(l, 0);
    epoch := e;
    LeadsArgs(l, ms, k);
    AnnouncedFile(k);
    FinalIsUninterrupted(a);
    vs, fs := LiftMoves(vs, fs, id, ms, k);
    assert Decodes(Last(k.containers[0].log)) ==> UsefulUnread(k) by { LastUseful(k); }
    vs, fs := KillLoses(vs, fs, id, code, now);
  }

  lemma LastUseful(j: Job)
    requires Watched(j) && j.stream.value.pos == 0
    ensures var log := j.containers[j.stream.value.cid].log; log != [] && Decodes(Last(log)) ==> UsefulUnread(j)
  {
    hide Decodes;
    var log := j.containers[j.stream.value.cid].log;
    if log != [] && Decodes(Last(log)) { assert Useful(log[|log| - 1]); }
  }

  lemma AnnouncedFile(j: Job)
    requires JobInv(j) && |j.containers| == 1 && j.containers[0].proc.Alive? && j.containers[0].proc.pc.Finishing?
    ensures Supported(j.args) && j.containers[0].proc.pc.mem == Final(j.args)
    ensures j.disk.main == Some(Render(Final(j.args)))
  {
    hide JobInv, Supported, Final, Render, OnTrack, Done, FileSound;
    AliveIsLast(j, 0);
    InvSupported(j);
    DoneIsFinal(j.args, j.containers[0].proc.pc.mem);
  }

  /** A run that has just launched a new job. */
  lemma LaunchedRun(id: string, a: Args, now: int) returns (vs: seq<World>, fs: seq<SystemEvent>, l: Job)
    requires Supported(a)
    ensures Execution(vs, fs) && Last(vs) == World(true, map[id := l]) && JobInv(l)
    ensures l.args == a && l.row.state == Running && !HasCheckpoint(l.row) && l.scan.None? && l.disk == Disk(None, None)
    ensures l.containers == [Container(Alive(Booting(false)), [], false)] && l.stream == Some(Stream(0, 0, false))
  {
    hide Next, Supported, JobInv, ControllerDo, ControllerEnabled;
    var self := Starter(0, "", "");
    vs, fs := CreatedRun(id, a, now);
    LaunchNew(a, self, now);
    vs, fs := ExtendControl(vs, fs, id, Launch(self, now));
    l := Last(vs).jobs[id];
    LastSoundJob(vs, fs, id);
    assert map[id := NewJob(a, now)][id := l] == map[id := l];
  }

  lemma LaunchNew(a: Args, self: Starter, now: int)
    ensures ControllerEnabled(NewJob(a, now), Launch(self, now))
    ensures var l := ControllerDo(NewJob(a, now), Launch(self, now));
            && l.args == a && l.row.state == Running && !HasCheckpoint(l.row) && l.scan.None?
            && l.containers == [Container(Alive(Booting(false)), [], false)] && l.disk == Disk(None, None)
            && l.stream == Some(Stream(0, 0, false))
  {
  }

  // ---------------------------------------------------------------- when work is given up

  /** A finished job whose controller dies before it reads a checkpoint line is given up: every supported
      job has a run that ends with the row interrupted_unresumable although the complete result is on disk. */
  lemma FinishedButUnresumable(id: string, a: Args, now: int) returns (vs: seq<World>, fs: seq<SystemEvent>)
    requires Supported(a)
    ensures Execution(vs, fs) && id in Last(vs).jobs && Last(vs).jobs[id].args == a
    ensures Last(vs).jobs[id].row.state == InterruptedUnresumable
    ensures Last(vs).jobs[id].disk.main == Some(UninterruptedFile(a))
  {
    hide Next, UninterruptedFile, Supported, JobInv, Leads, ControllerDo, ControllerEnabled, Final, Render;
    var l;
    vs, fs, l := LaunchedRun(id, a, now);
    var ms, k := WorkerCanFinish(l, 0);
    LeadsArgs(l, ms, k);
    FinishedFile(k);
    vs, fs := LiftMoves(vs, fs, id, ms, k);
    vs, fs := Reboot(vs, fs);
    ScanGivesUp(Last(vs).jobs[id], now);
    vs, fs := ExtendControl(vs, fs, id, ScanRow(None, now));
    FinalIsUninterrupted(a);
  }

  lemma FinishedFile(j: Job)
    requires JobInv(j) && |j.containers| == 1 && j.containers[0].proc == Exited(0)
    ensures Supported(j.args) && j.disk.main == Some(Render(Final(j.args)))
  {
    hide Supported, FileSound, RecordSound, RowSound, ControlSound, Render, Final, OnTrack, LogSound;
  }

  lemma ScanGivesUp(j: Job, now: int)
    requires j.row.state == Running && !HasCheckpoint(j.row) && j.scan == Some(None)
    ensures ControllerEnabled(j, ScanRow(None, now))
    ensures var k := ControllerDo(j, ScanRow(None, now));
            k.row.state == InterruptedUnresumable && k.disk == j.disk && k.args == j.args
  {
    assert Decision(j) == Recovery.MarkUnresumable;
  }

  /** Event m stores a checkpoint line of job id. */
  ghost predicate Stores(ws: seq<World>, es: seq<SystemEvent>, m: nat, id: string)
    requires m < |ws| && m < |es|
  {
    && es[m].Control? && es[m].id == id && es[m].cstep.ReadLine? && es[m].cstep.stored
    && id in ws[m].jobs && ControllerEnabled(ws[m].jobs[id], es[m].cstep)
    && var st := ws[m].jobs[id].stream.value; Decodes(ws[m].jobs[id].containers[st.cid].log[st.pos])
  }

  ghost predicate StoredBefore(ws: seq<World>, es: seq<SystemEvent>, i: nat, id: string)
    requires i < |ws| && i <= |es|
  {
    exists m :: 0 <= m < i && Stores(ws, es, m, id)
  }

  /** A row has a recorded checkpoint if and only if some decodable checkpoint line was read and stored
      earlier in the run. */
  lemma {:induction false} RecordedIff(ws: seq<World>, es: seq<SystemEvent>, i: nat, id: string)
    requires Execution(ws, es) && i < |ws| && id in ws[i].jobs
    ensures |ws| == |es| + 1
    ensures HasCheckpoint(ws[i].jobs[id].row) <==> StoredBefore(ws, es, i, id)
  {
    hide Next, Stores, ControllerDo, ControllerEnabled, WorkerDo, WorkerEnabled, HasCheckpoint;
    if i == 0 {
    } else {
      var m := i - 1;
      StepOf(ws, es, m);
      StoredNext(ws, es, m, id);
      if id in ws[m].jobs {
        RecordedIff(ws, es, m, id);
        StepRecords(ws, es, m, id);
      } else {
        NotStoredBeforeCreation(ws, es, m, id);
        CreatedBlank(ws, es, m, id);
      }
    }
  }

  /** When work is given up: a scan that finds no running worker for a running row marks it unresumable if
      and only if no checkpoint line of the job was ever read, decoded and stored, whatever is on disk. */
  lemma GivenUpIff(ws: seq<World>, es: seq<SystemEvent>, i: nat, id: string)
    requires Execution(ws, es) && i < |es| && es[i].Control? && es[i].id == id && es[i].cstep.ScanRow?
    requires i < |ws| && id in ws[i].jobs && (ws[i].jobs[id].row.state in {Running, Checkpointing})
    requires var l := ws[i].jobs[id].scan; l.Some? && (l.value.Some? ==> !l.value.value.running)
    ensures |ws| == |es| + 1 && id in ws[i + 1].jobs
    ensures ws[i + 1].jobs[id].row.state == InterruptedUnresumable <==> !StoredBefore(ws, es, i, id)
  {
    hide Stores, ControllerDo, ControllerEnabled, HasCheckpoint, WorkerDo, WorkerEnabled;
    StepOf(ws, es, i);
    RecordedIff(ws, es, i, id);
    ScanVerdict(ws[i].jobs[id], es[i].cstep);
  }

  lemma ScanVerdict(j: Job, s: ControllerStep)
    requires s.ScanRow? && ControllerEnabled(j, s) && (j.row.state in {Running, Checkpointing})
    requires j.scan.value.Some? ==> !j.scan.value.value.running
    ensures ControllerDo(j, s).row.state == InterruptedUnresumable <==> !HasCheckpoint(j.row)
  {
    hide Moved, LaunchColumns;
    MovedKeeps(j.row, InterruptedUnresumable, map[], s.now);
    MovedKeeps(j.row, InterruptedResumable, map[], s.now);
    if s.launch.Some? {
      LaunchSettable(s.launch.value, |j.containers|);
      var setters := LaunchColumns(s.launch.value, |j.containers|);
      MovedKeeps(Moved(j.row, InterruptedResumable, map[], s.now), Running, setters, s.now);
    }
  }

  lemma StoredNext(ws: seq<World>, es: seq<SystemEvent>, m: nat, id: string)
    requires |ws| == |es| + 1 && m < |es|
    ensures StoredBefore(ws, es, m + 1, id) <==> StoredBefore(ws, es, m, id) || Stores(ws, es, m, id)
  {
    hide Stores;
  }

  lemma {:induction false} NotStoredBeforeCreation(ws: seq<World>, es: seq<SystemEvent>, i: nat, id: string)
    requires Execution(ws, es) && i < |ws| && id !in ws[i].jobs
    ensures |ws| == |es| + 1 && !StoredBefore(ws, es, i, id)
  {
    hide Next, ControllerEnabled, ControllerDo, WorkerEnabled, WorkerDo;
    if i == 0 {
    } else {
      StepOf(ws, es, i - 1);
      JobsStay(ws[i - 1], es[i - 1], ws[i]);
      NotStoredBeforeCreation(ws, es, i - 1, id);
      StoredNext(ws, es, i - 1, id);
    }
  }

  lemma JobsStay(w: World, e: SystemEvent, v: World)
    requires Next(w, e, v)
    ensures w.jobs.Keys <= v.jobs.Keys
  {
    hide ControllerEnabled, ControllerDo, WorkerEnabled, WorkerDo;
  }

  lemma CreatedBlank(ws: seq<World>, es: seq<SystemEvent>, m: nat, id: string)
    requires |ws| == |es| + 1 && m < |es| && Next(ws[m], es[m], ws[m + 1])
    requires id !in ws[m].jobs && id in ws[m + 1].jobs
    ensures !HasCheckpoint(ws[m + 1].jobs[id].row) && !Stores(ws, es, m, id)
  {
    hide ControllerEnabled, ControllerDo, WorkerEnabled, WorkerDo;
  }

  lemma StepRecords(ws: seq<World>, es: seq<SystemEvent>, m: nat, id: string)
    requires |ws| == |es| + 1 && m < |es| && Next(ws[m], es[m], ws[m + 1]) && id in ws[m].jobs
    ensures id in ws[m + 1].jobs
    ensures HasCheckpoint(ws[m + 1].jobs[id].row) <==> HasCheckpoint(ws[m].jobs[id].row) || Stores(ws, es, m, id)
  {
    hide ControllerEnabled, ControllerDo, WorkerEnabled, WorkerDo, HasCheckpoint, Decodes;
    var e := es[m];
    if e.Work? && e.id == id {
      WorkerLeavesRow(ws[m].jobs[id], e.container, e.step);
    } else if e.Control? && e.id == id {
      ControllerRecords(ws[m].jobs[id], e.cstep);
    }
  }

  lemma ControllerRecords(j: Job, s: ControllerStep)
    requires ControllerEnabled(j, s)
    ensures HasCheckpoint(ControllerDo(j, s).row) <==>
            HasCheckpoint(j.row) || (s.ReadLine? && s.stored
              && var st := j.stream.value; Decodes(j.containers[st.cid].log[st.pos]))
  {
    hide Moved, Decodes, Decision, LaunchColumns;
    match s
    case Launch(self, now) =>
      LaunchSettable(self, |j.containers|);
      MovedKeeps(j.row, Running, LaunchColumns(self, |j.containers|), now);
    case StartRefused =>
    case StartFails(now) => MovedKeeps(j.row, Failed, map[ExitCode := Int(-1)], now);
    case ReadLine(_, _) =>
    case StreamEnds(_, now) =>
      var p := j.containers[j.stream.value.cid].proc;
      if !p.Alive? {
        MovedKeeps(j.row, Completed, map[ExitCode := Int(p.code)], now);
        MovedKeeps(j.row, Failed, map[ExitCode := Int(p.code)], now);
      }
    case StreamLost(now) => MovedKeeps(j.row, Failed, map[], now);
    case CancelJob(now) => MovedKeeps(j.row, Cancelled, map[], now);
    case MarkInterrupted(now) =>
      MovedKeeps(j.row, InterruptedResumable, map[], now);
      MovedKeeps(j.row, InterruptedUnresumable, map[], now);
    case ScanRow(launch, now) =>
      var r := Moved(j.row, InterruptedResumable, map[], now);
      MovedKeeps(j.row, InterruptedResumable, map[], now);
      MovedKeeps(j.row, InterruptedUnresumable, map[], now);
      if launch.Some? {
        LaunchSettable(launch.value, |j.containers|);
        MovedKeeps(j.row, Running, LaunchColumns(launch.value, |j.containers|), now);
        MovedKeeps(r, Running, LaunchColumns(launch.value, |j.containers|), now);
      }
  }

  // ---------------------------------------------------------------- a failed listing

  /** The smallest job: the product of two empty matrices. */
  const TINY: Args := Args(MatMulWorker, 0, 1, 0)
  const TINY_STATE: State := MatMulState(MatMul.State(0, 0, 0, 0))

  lemma TinyFacts()
    ensures Supported(TINY) && Boot(TINY, false, None) == Ok(TINY_STATE) && Enter(TINY_STATE) == TINY_STATE
    ensures Done(TINY_STATE) && Found(TINY_STATE) == 0 && Cursor(TINY_STATE) == 0
  {
  }

  /** The job after its only container has written log and got to pc, with its reader at line pos. */
  predicate TinyAt(j: Job, pc: Pc, log: seq<Line>, pos: nat) {
    && j.args == TINY && j.row.state == Running && j.scan.None?
    && j.containers == [Container(Alive(pc), log, false)] && j.stream == Some(Stream(0, pos, false))
  }

  lemma OneContainer(j: Job, p: Proc, log: seq<Line>, lines: seq<Line>)
    requires |j.containers| == 1 && j.containers[0].log == log && !j.containers[0].removed
    ensures WithPc(j, 0, p, lines).containers == [Container(p, log + lines, false)]
  {
  }

  /** The worker of the tiny job up to its checkpoint line, the file complete on disk. */
  lemma TinyWorks(j: Job) returns (ms: seq<Move>, k: Job)
    requires TinyAt(j, Booting(false), [], 0) && j.disk == Disk(None, None)
    ensures Leads(j, ms, k) && TinyAt(k, Finishing(TINY_STATE), [StartedLine, CheckpointLine(1, 0, 0)], 0)
    ensures k.disk.main == Some(Render(TINY_STATE))
  {
    hide Leads, Boot, Enter, Done, Found, Cursor, Supported, Render, Advance, Tick;
    TinyFacts();
    var n := |Render(TINY_STATE)|;
    assert [] + [StartedLine] == [StartedLine] + [] == [StartedLine];
    var j1 := WorkerDo(j, 0, BootStep);
    OneContainer(j, Alive(Looping(TINY_STATE, 0, 0)), [], [StartedLine]);
    assert TinyAt(j1, Looping(TINY_STATE, 0, 0), [StartedLine], 0);
    var j2 := WorkerDo(j1, 0, Iterate);
    OneContainer(j1, Alive(Opening(TINY_STATE, 0, 1, true)), [StartedLine], []);
    assert TinyAt(j2, Opening(TINY_STATE, 0, 1, true), [StartedLine], 0);
    var j3 := WorkerDo(j2, 0, Open);
    assert TinyAt(j3, Writing(TINY_STATE, 0, 1, true, 0), [StartedLine], 0) && j3.disk.tmp == Some([]);
    var j4 := WorkerDo(j3, 0, Write(n));
    assert [] + Render(TINY_STATE)[0..0 + n] == Render(TINY_STATE);
    assert TinyAt(j4, Writing(TINY_STATE, 0, 1, true, n), [StartedLine], 0) && j4.disk.tmp == Some(Render(TINY_STATE));
    var j5 := WorkerDo(j4, 0, Rename);
    assert TinyAt(j5, Announcing(TINY_STATE, 1, true), [StartedLine], 0) && j5.disk.main == Some(Render(TINY_STATE));
    k := WorkerDo(j5, 0, Announce);
    assert [StartedLine] + [CheckpointLine(1, 0, 0)] == [StartedLine, CheckpointLine(1, 0, 0)];
    LeadsNowhere(k);
    LeadsWorker(j5, 0, Announce, [], k);
    ms := [ByWorker(0, Announce)] + [];
    LeadsWorker(j4, 0, Rename, ms, k);
    ms := [ByWorker(0, Rename)] + ms;
    LeadsWorker(j3, 0, Write(n), ms, k);
    ms := [ByWorker(0, Write(n))] + ms;
    LeadsWorker(j2, 0, Open, ms, k);
    ms := [ByWorker(0, Open)] + ms;
    LeadsWorker(j1, 0, Iterate, ms, k);
    ms := [ByWorker(0, Iterate)] + ms;
    LeadsWorker(j, 0, BootStep, ms, k);
    ms := [ByWorker(0, BootStep)] + ms;
  }

  lemma TinyRecorded(row: Row)
    requires row.state == Running
    ensures var r := Recorded(row, [StartedLine, CheckpointLine(1, 0, 0)], [true, true], [0, 0]);
            r.state == Running && HasCheckpoint(r)
  {
    RecordedNext(row, [StartedLine, CheckpointLine(1, 0, 0)], [true, true], [0, 0]);
  }

  /** A run that has launched the tiny job and read its checkpoint line, the worker about to complete. */
  lemma TinyRun(id: string, now: int) returns (vs: seq<World>, fs: seq<SystemEvent>, k: Job)
    ensures Execution(vs, fs) && Last(vs).up && id in Last(vs).jobs && Last(vs).jobs[id] == k
    ensures TinyAt(k, Finishing(TINY_STATE), [StartedLine, CheckpointLine(1, 0, 0)], 2) && HasCheckpoint(k.row)
    ensures k.disk.main == Some(Render(TINY_STATE))
  {
    hide Next, Leads, Render, Supported, Recorded, HasCheckpoint, JobInv;
    TinyFacts();
    var l;
    vs, fs, l := LaunchedRun(id, TINY, now);
    var ms, m := TinyWorks(l);
    vs, fs := LiftMoves(vs, fs, id, ms, m);
    var ns;
    ns, k := DrainLog(m, [StartedLine, CheckpointLine(1, 0, 0)], [true, true], [0, 0]);
    TinyRecorded(m.row);
    vs, fs := LiftMoves(vs, fs, id, ns, k);
  }

  /** A job whose checkpoint is recorded and whose file is good is failed for good when its worker is killed
      while watched. */
  lemma CheckpointedButFailed(id: string, code: int, now: int) returns (vs: seq<World>, fs: seq<SystemEvent>)
    requires code >= 128
    ensures Execution(vs, fs) && Last(vs).up && id in Last(vs).jobs && !CanComplete(vs, fs, id)
    ensures var k := Last(vs).jobs[id];
            && k.row.state == Failed && HasCheckpoint(k.row) && k.args == TINY
            && k.disk.main == Some(Render(TINY_STATE)) && Boot(TINY, true, k.disk.main) == Ok(TINY_STATE)
  {
    hide Next, CanComplete, Render, HasCheckpoint, Load, Matches;
    var k;
    vs, fs, k := TinyRun(id, now);
    vs, fs := KillLoses(vs, fs, id, code, now);
    assert OnTrack(TINY, TINY_STATE) by { TinyOnTrack(); }
    LoadRender(TINY, TINY_STATE);
  }

  lemma TinyOnTrack()
    ensures OnTrack(TINY, TINY_STATE)
  {
    hide OnTrack;
    FreshOnTrack(TINY);
  }

  /** The failure FailedListingDoublesIff describes can occur: a run reaches a controller crash with a running,
      checkpointed row whose worker lives on, and a listing error at the next start makes the scan launch a
      second worker beside it. */
  lemma FailedListingReachable(id: string, self: Starter, now: int) returns (vs: seq<World>, fs: seq<SystemEvent>)
    ensures Execution(vs, fs) && !Last(vs).up && id in Last(vs).jobs
    ensures TwoAlive(ControllerDo(Last(vs).jobs[id].(scan := Some(None)), ScanRow(Some(self), now)))
  {
    hide Next, Render, ControllerDo, ControllerEnabled, HasCheckpoint, JobInv, TwoAlive;
    var k;
    vs, fs, k := TinyRun(id, now);
    vs, fs := Crash(vs, fs);
    var j := Last(vs).jobs[id];
    assert j.containers[0].proc.Alive?;
    LastSoundJob(vs, fs, id);
    FailedListingDoublesIff(j, Some(self), now);
  }
}

/** Rows, disk, containers and controller as one transition system. A worker's steps, the supervisor's
    log reader, crashes on either side, the recovery scan and resumes interleave freely.

    A worker is started from two places only: by the request that creates the job, and by the recovery scan
    for an interrupted_resumable row.

    Assumptions built into the steps: a transaction is atomic; starting a container and recording it is
    one step; the listing of the recovery scan succeeds; on a graceful shutdown stop or kill takes effect
    before the job is marked interrupted. */
module JobSystem {
  import opened Words
  import opened Workers
  import opened Store
  import Recovery

  // ---------------------------------------------------------------- state

  /** The lines a worker prints. */
  datatype Line = StartedLine | CheckpointLine(epoch: nat, found: u64, next: nat) | CompletedLine

  /** Where a worker process is. */
  datatype Pc =
    | Booting(resume: bool)
    | Looping(mem: State, since: nat, epoch: nat)
    | Opening(mem: State, since: nat, epoch: nat, final: bool)
    | Writing(mem: State, since: nat, epoch: nat, final: bool, written: nat)
    | Announcing(mem: State, epoch: nat, final: bool)
    | Finishing(mem: State)
    | Exiting

  datatype Proc = Alive(pc: Pc) | Exited(code: int)

  datatype Container = Container(proc: Proc, log: seq<Line>, removed: bool)

  /** The state file and the temporary file beside it. */
  datatype Disk = Disk(main: Option<seq<byte>>, tmp: Option<seq<byte>>)

  /** The supervisor's reader of one container's log. */
  datatype Stream = Stream(cid: nat, pos: nat, sawCompleted: bool)

  /** What the start-up listing said about a job: the container picked for it, if any. */
  datatype Listed = Listed(cid: nat, running: bool, samePid: bool)

  /** starting: the request that created the job has not yet started it. */
  datatype Job = Job(args: Args, row: Row, disk: Disk, containers: seq<Container>, stream: Option<Stream>,
                     scan: Option<Option<Listed>>, starting: bool)

  datatype World = World(up: bool, jobs: map<string, Job>)

  function NewJob(a: Args, now: int): Job {
    Job(a, Row(Pending, now, map[]), Disk(None, None), [], None, None, true)
  }

  // ---------------------------------------------------------------- worker steps

  datatype WorkerStep = BootStep | Iterate | Open | Write(n: nat) | Rename | Announce | Finish | Exit | WriteFails
    | Killed(code: int)

  ghost predicate WorkerEnabled(j: Job, c: nat, s: WorkerStep) {
    c < |j.containers| && j.containers[c].proc.Alive? &&
    var pc := j.containers[c].proc.pc;
    match s
    case BootStep => pc.Booting?
    case Iterate => pc.Looping?
    case Open => pc.Opening?
    case Write(n) => pc.Writing? && j.disk.tmp.Some? && pc.written + n <= |Render(pc.mem)|
    case Rename => pc.Writing? && pc.written == |Render(pc.mem)|
    case Announce => pc.Announcing?
    case Finish => pc.Finishing?
    case Exit => pc.Exiting?
    case WriteFails => pc.Opening? || pc.Writing?
    case Killed(code) => code >= 128
  }

  function WithPc(j: Job, c: nat, p: Proc, lines: seq<Line>): Job
    requires c < |j.containers|
  {
    j.(containers := j.containers[c := j.containers[c].(proc := p, log := j.containers[c].log + lines)])
  }

  ghost function WorkerDo(j: Job, c: nat, s: WorkerStep): Job
    requires WorkerEnabled(j, c, s)
  {
    var pc := j.containers[c].proc.pc;
    match s
    case BootStep =>
      (match Boot(j.args, pc.resume, j.disk.main)
       case Err(code) => WithPc(j, c, Exited(code), [])
       case Ok(st) => WithPc(j, c, Alive(Looping(Enter(st), 0, 0)), [StartedLine]))
    case Iterate =>
      if Done(pc.mem) then WithPc(j, c, Alive(Opening(pc.mem, pc.since, pc.epoch + 1, true)), [])
      else
        var n := pc.since + Tick(pc.mem);
        if Tick(pc.mem) > 0 && n >= Cadence(j.args)
          then WithPc(j, c, Alive(Opening(Advance(pc.mem), n, pc.epoch + 1, false)), [])
        else WithPc(j, c, Alive(Looping(Advance(pc.mem), n, pc.epoch)), [])
    case Open =>
      WithPc(j, c, Alive(Writing(pc.mem, pc.since, pc.epoch, pc.final, 0)), []).(disk := j.disk.(tmp := Some([])))
    case Write(n) =>
      WithPc(j, c, Alive(pc.(written := pc.written + n)), [])
        .(disk := j.disk.(tmp := Some(j.disk.tmp.value + Render(pc.mem)[pc.written..pc.written + n])))
    case Rename =>
      WithPc(j, c, Alive(Announcing(pc.mem, pc.epoch, pc.final)), []).(disk := Disk(j.disk.tmp, None))
    case Announce =>
      WithPc(j, c, Alive(if pc.final then Finishing(pc.mem) else Looping(pc.mem, 0, pc.epoch)),
             [CheckpointLine(pc.epoch, Found(pc.mem), Cursor(pc.mem))])
    case Finish => WithPc(j, c, Alive(Exiting), [CompletedLine])
    case Exit => WithPc(j, c, Exited(0), [])
    case WriteFails => WithPc(j, c, Exited(5), [])
    case Killed(code) => WithPc(j, c, Exited(code), [])
  }

  // ---------------------------------------------------------------- controller steps

  /** A checkpoint line decodes into the event's int64 fields, or the reader skips it. */
  predicate Decodes(l: Line) {
    l.CheckpointLine? && l.epoch < INT64 && l.found < INT64 && l.next < INT64
  }

  /** What a controller writes about itself on the row of a job it launches; the name is empty without
      clustering. */
  datatype Starter = Starter(pid: int, volume: string, controller: string)

  function LaunchColumns(self: Starter, container: nat): map<Column, Value> {
    var m := map[ContainerId := Int(container), ControllerPid := Int(self.pid), StateVolumePath := Text(self.volume)];
    if self.controller == "" then m else m[AssignedControllerId := Text(self.controller)]
  }

  /** StartRefused is a start by a controller that does not lead; ScanRow carries the launch that succeeds, if
      any. */
  datatype ControllerStep =
    | Launch(self: Starter, now: int)
    | StartFails(now: int)
    | StartRefused
    | ReadLine(stored: bool, now: int)
    | StreamEnds(removed: bool, now: int)
    | StreamLost(now: int)
    | CancelJob(now: int)
    | MarkInterrupted(now: int)
    | ScanRow(launch: Option<Starter>, now: int)

  predicate NoneAlive(j: Job) {
    forall c :: 0 <= c < |j.containers| ==> !j.containers[c].proc.Alive?
  }

  predicate HasCheckpoint(r: Row) {
    CkptAt in r.cols
  }

  /** A transition whose rejection the caller ignores. */
  function Moved(r: Row, next: JobState, setters: map<Column, Value>, now: int): Row {
    match TransitionRow(r, next, setters, now)
    case Ok(r') => r'
    case Err(_) => r
  }

  predicate ControllerEnabled(j: Job, s: ControllerStep) {
    match s
    case Launch(_, _) => j.starting && j.row.state == Pending
    case StartFails(_) => j.starting
    case StartRefused => j.starting
    case ReadLine(_, _) => j.stream.Some? && j.stream.value.cid < |j.containers|
                           && j.stream.value.pos < |j.containers[j.stream.value.cid].log|
    case StreamEnds(_, _) => j.stream.Some? && j.stream.value.cid < |j.containers|
    case StreamLost(_) => j.stream.Some?
    case CancelJob(_) => j.scan.None?
    case MarkInterrupted(_) => j.scan.None? && j.stream.None? && j.containers != [] && NoneAlive(j)
      && !IsTerminal(j.row.state)
    case ScanRow(_, _) => j.scan.Some?
  }

  /** docker run plus the transition to running, then the log reader. */
  function Launched(j: Job, self: Starter, now: int): Job {
    var resume := j.row.state == InterruptedResumable && CkptPath in j.row.cols;
    j.(row := Moved(j.row, Running, LaunchColumns(self, |j.containers|), now),
       containers := j.containers + [Container(Alive(Booting(resume)), [], false)],
       stream := Some(Stream(|j.containers|, 0, false)), starting := false)
  }

  /** The scan's decision for this job; the container id is its index. */
  function Decision(j: Job): Recovery.Action
    requires j.scan.Some?
  {
    var live := match j.scan.value
      case None => None
      case Some(l) => Some(Recovery.Summary("", "", if l.samePid then "" else "other", l.running));
    Recovery.Classify(j.row.state, HasCheckpoint(j.row), live, "")
  }

  function ControllerDo(j: Job, s: ControllerStep): Job
    requires ControllerEnabled(j, s)
  {
    match s
    case Launch(self, now) => Launched(j, self, now)
    case StartFails(now) => j.(row := Moved(j.row, Failed, map[ExitCode := Int(-1)], now), starting := false)
    case StartRefused => j.(starting := false)
    case ReadLine(stored, now) =>
      var st := j.stream.value;
      var l := j.containers[st.cid].log[st.pos];
      var k := j.(stream := Some(st.(pos := st.pos + 1, sawCompleted := st.sawCompleted || l.CompletedLine?)));
      if stored && Decodes(l) then k.(row := CheckpointRow(j.row, l.epoch, l.found, "state.bin", now)) else k
    case StreamEnds(removed, now) =>
      var st := j.stream.value;
      var p := j.containers[st.cid].proc;
      if p.Alive? then j.(stream := None)
      else
        var next := if p.code == 0 || st.sawCompleted then Completed else Failed;
        j.(row := Moved(j.row, next, map[ExitCode := Int(p.code)], now), stream := None,
           containers := j.containers[st.cid := j.containers[st.cid].(removed := removed)])
    case StreamLost(now) => j.(row := Moved(j.row, Failed, map[], now), stream := None)
    case CancelJob(now) => j.(row := Moved(j.row, Cancelled, map[], now))
    case MarkInterrupted(now) =>
      j.(row := Moved(j.row, if HasCheckpoint(j.row) then InterruptedResumable else InterruptedUnresumable, map[], now))
    case ScanRow(launch, now) =>
      var k := j.(scan := None);
      match Decision(j)
      case Adopt(_) => if j.scan.value.Some? then k.(stream := Some(Stream(j.scan.value.value.cid, 0, false))) else k
      case MarkResumable =>
        var m := k.(row := Moved(j.row, InterruptedResumable, map[], now));
        if launch.Some? && m.row.state == InterruptedResumable then Launched(m, launch.value, now) else m
      case MarkUnresumable => k.(row := Moved(j.row, InterruptedUnresumable, map[], now))
      case Resume => if launch.Some? then Launched(k, launch.value, now) else k
      case Leave => k
  }

  // ---------------------------------------------------------------- the system

  datatype SystemEvent =
    | Create(id: string, args: Args, now: int)
    | Work(id: string, container: nat, step: WorkerStep)
    | Control(id: string, cstep: ControllerStep)
    | ControllerCrash
    | ControllerRestart(listings: map<string, Option<Listed>>)

  /** A successful listing picks a container of the job if it has any left, and a running one if one runs. */
  predicate TrueListing(j: Job, l: Option<Listed>) {
    match l
    case None => forall c :: 0 <= c < |j.containers| ==> j.containers[c].removed || !j.containers[c].proc.Alive?
    case Some(s) =>
      && s.cid < |j.containers|
      && s.running == j.containers[s.cid].proc.Alive?
      && (!s.running ==> forall c :: 0 <= c < |j.containers| ==>
          j.containers[c].removed || !j.containers[c].proc.Alive?)
  }

  /** What a dying controller leaves of a job: neither reader nor scan entry nor pending start. */
  function Forgotten(j: Job): Job {
    j.(stream := None, scan := None, starting := false)
  }

  ghost predicate Next(w: World, e: SystemEvent, v: World) {
    match e
    case Create(id, a, now) =>
      w.up && id !in w.jobs && Supported(a) && v == w.(jobs := w.jobs[id := NewJob(a, now)])
    case Work(id, c, s) =>
      id in w.jobs && WorkerEnabled(w.jobs[id], c, s) && v == w.(jobs := w.jobs[id := WorkerDo(w.jobs[id], c, s)])
    case Control(id, s) =>
      w.up && id in w.jobs && ControllerEnabled(w.jobs[id], s)
        && v == w.(jobs := w.jobs[id := ControllerDo(w.jobs[id], s)])
    case ControllerCrash =>
      w.up && v == World(false, map id | id in w.jobs :: Forgotten(w.jobs[id]))
    case ControllerRestart(ls) =>
      && !w.up && ls.Keys == w.jobs.Keys
      && (forall id :: id in w.jobs ==> TrueListing(w.jobs[id], ls[id]))
      && v == World(true, map id | id in w.jobs :: w.jobs[id].(scan := Some(ls[id])))
  }

  /** A run: states and the events between them, from the empty store with the controller up. */
  ghost predicate Execution(ws: seq<World>, es: seq<SystemEvent>) {
    && |ws| == |es| + 1 && ws[0] == World(true, map[])
    && forall i :: 0 <= i < |es| ==> Next(ws[i], es[i], ws[i + 1])
  }

  // ---------------------------------------------------------------- invariant

  /** What the state file holds, as the worker's reader sees it. */
  function OnDisk(a: Args, d: Disk): Option<State> {
    if d.main.None? then None else Load(a.worker, d.main.value)
  }

  /** The file is the complete rendering of state s, which is on the deterministic path. */
  ghost predicate Holds(a: Args, d: Disk, s: State) {
    OnTrack(a, s) && d.main == Some(Render(s))
  }

  /** The file is absent or sound; a torn or foreign file never shows. */
  ghost predicate FileSound(a: Args, d: Disk) {
    d.main.Some? ==> OnDisk(a, d).Some? && Holds(a, d, OnDisk(a, d).value)
  }

  ghost predicate FinalOnDisk(a: Args, d: Disk)
    requires Supported(a)
  {
    Holds(a, d, Final(a))
  }

  /** Progress already safe on disk. */
  function SafeUnits(a: Args, d: Disk): nat {
    if OnDisk(a, d).Some? then Units(OnDisk(a, d).value) else 0
  }

  function SafeCursor(a: Args, d: Disk): nat {
    if OnDisk(a, d).Some? then Cursor(OnDisk(a, d).value) else 0
  }

  /** In-memory progress is exactly since units ahead of the disk, and never more than the cadence. */
  ghost predicate Ahead(a: Args, d: Disk, mem: State, since: nat) {
    && OnTrack(a, mem)
    && Units(mem) == SafeUnits(a, d) + since && SafeCursor(a, d) <= Cursor(mem)
    && since <= Cadence(a)
  }

  ghost predicate PcSound(a: Args, d: Disk, pc: Pc)
    requires Supported(a)
  {
    match pc
    case Booting(resume) => resume <==> d.main.Some?
    case Looping(mem, since, _) => Ahead(a, d, mem, since) && since < Cadence(a)
    case Opening(mem, since, _, final) => Ahead(a, d, mem, since) && (final ==> Done(mem))
    case Writing(mem, since, _, final, written) =>
      && Ahead(a, d, mem, since) && (final ==> Done(mem))
      && written <= |Render(mem)| && d.tmp == Some(Render(mem)[..written])
    case Announcing(mem, _, final) => Holds(a, d, mem) && (final ==> Done(mem))
    case Finishing(mem) => Holds(a, d, mem) && Done(mem)
    case Exiting => FinalOnDisk(a, d)
  }

  /** The state on the path at cursor c, at or before the one on disk, reports this found value. */
  ghost predicate AnnouncedAt(a: Args, c: u64, found: int, bound: nat) {
    c <= bound && OnTrack(a, AtCursor(a, c)) && Found(AtCursor(a, c)) == found
  }

  ghost predicate LineSound(a: Args, d: Disk, l: Line) {
    l.CheckpointLine? ==> d.main.Some? && l.next < TWO64 && AnnouncedAt(a, l.next, l.found, SafeCursor(a, d))
  }

  ghost predicate RecordSound(a: Args, d: Disk, r: Row) {
    && (CkptAt in r.cols <==> CkptPath in r.cols) && (CkptAt in r.cols <==> CkptFound in r.cols)
    && (CkptAt in r.cols ==>
          d.main.Some? && r.cols[CkptFound].Int?
            && exists c: u64 :: AnnouncedAt(a, c, r.cols[CkptFound].i, SafeCursor(a, d)))
  }

  /** The newest container: only its worker may be alive, and a completed line or exit code 0 in it means
      that the final file is on disk. */
  ghost predicate LastSound(a: Args, d: Disk, c: Container)
    requires Supported(a)
  {
    && (c.proc.Alive? ==> PcSound(a, d, c.proc.pc))
    && (c.proc == Exited(0) ==> FinalOnDisk(a, d))
    && (CompletedLine in c.log ==> FinalOnDisk(a, d) && (c.proc.Alive? ==> c.proc.pc.Exiting?))
  }

  ghost predicate LogSound(a: Args, d: Disk, log: seq<Line>) {
    forall i :: 0 <= i < |log| ==> LineSound(a, d, log[i])
  }

  ghost predicate ContainersSound(a: Args, d: Disk, cs: seq<Container>)
    requires Supported(a)
  {
    && (forall c :: 0 <= c < |cs| ==> (cs[c].proc.Alive? ==> c + 1 == |cs| && !cs[c].removed))
    && (forall c :: 0 <= c < |cs| ==> LogSound(a, d, cs[c].log))
    && (forall c :: 0 <= c < |cs| ==> cs[c].proc != Exited(3) && cs[c].proc != Exited(4))
    && (cs != [] ==> LastSound(a, d, Last(cs)))
  }

  ghost predicate RowSound(j: Job)
    requires Supported(j.args)
  {
    && (j.row.state == Pending ==> j.containers == [] && j.disk == Disk(None, None) && j.stream.None?)
    && (j.row.state == InterruptedResumable ==> NoneAlive(j) && j.stream.None? && HasCheckpoint(j.row))
    && (j.row.state == InterruptedUnresumable ==> NoneAlive(j) && j.stream.None? && !HasCheckpoint(j.row))
    && (j.row.state == Completed ==> NoneAlive(j) && FinalOnDisk(j.args, j.disk))
    && (j.row.state == Running || j.row.state == Checkpointing ==> j.containers != [])
  }

  ghost predicate ControlSound(j: Job) {
    && (j.starting ==> j.containers == [])
    && (j.stream.Some? ==>
          && j.stream.value.cid + 1 == |j.containers| && j.stream.value.pos <= |Last(j.containers).log|
          && (j.stream.value.sawCompleted ==> CompletedLine in Last(j.containers).log))
    && (j.scan.Some? ==>
          && j.stream.None? && !j.starting
          && (j.scan.value.None? || !j.scan.value.value.running ==> NoneAlive(j))
          && (j.scan.value.Some? && j.scan.value.value.running ==> j.scan.value.value.cid + 1 == |j.containers|))
  }

  ghost predicate JobInv(j: Job) {
    && Supported(j.args) && FileSound(j.args, j.disk) && RecordSound(j.args, j.disk, j.row)
    && ContainersSound(j.args, j.disk, j.containers) && RowSound(j) && ControlSound(j)
  }

  ghost predicate WorldInv(w: World) {
    forall id :: id in w.jobs ==> JobInv(w.jobs[id]) && (!w.up ==> w.jobs[id] == Forgotten(w.jobs[id]))
  }

  // ---------------------------------------------------------------- worker steps keep the invariant

  /** A step of the newest worker that leaves the disk alone. */
  lemma ProcChange(j: Job, p: Proc, lines: seq<Line>)
    requires JobInv(j) && j.containers != [] && Last(j.containers).proc.Alive?
    requires p.Alive? ==> PcSound(j.args, j.disk, p.pc)
    requires p != Exited(3) && p != Exited(4) && (p == Exited(0) ==> FinalOnDisk(j.args, j.disk))
    requires LogSound(j.args, j.disk, lines)
    requires CompletedLine in Last(j.containers).log + lines ==>
             FinalOnDisk(j.args, j.disk) && (p.Alive? ==> p.pc.Exiting?)
    ensures JobInv(WithPc(j, |j.containers| - 1, p, lines))
  {
    hide Supported, FileSound, RecordSound, LineSound, FinalOnDisk, PcSound;
    var n := |j.containers| - 1;
    var k := WithPc(j, n, p, lines);
    assert j.containers[n].proc.Alive?;
    assert !NoneAlive(j);
    var log := j.containers[n].log;
    assert LogSound(j.args, j.disk, k.containers[n].log) by {
      assert LogSound(j.args, j.disk, log);
    }
    assert forall l :: l in log ==> l in k.containers[n].log;
    assert ContainersSound(k.args, k.disk, k.containers);
  }

  /** The one container whose worker is alive is the newest. */
  lemma AliveIsLast(j: Job, c: nat)
    requires JobInv(j) && c < |j.containers| && j.containers[c].proc.Alive?
    ensures c + 1 == |j.containers| && Last(j.containers) == j.containers[c]
    ensures PcSound(j.args, j.disk, j.containers[c].proc.pc) && FileSound(j.args, j.disk)
    ensures CompletedLine in j.containers[c].log ==> j.containers[c].proc.pc.Exiting? && FinalOnDisk(j.args, j.disk)
  {
    hide PcSound, FileSound, FinalOnDisk;
  }

  lemma BootKeeps(j: Job, c: nat)
    requires JobInv(j) && WorkerEnabled(j, c, BootStep)
    ensures JobInv(WorkerDo(j, c, BootStep))
  {
    hide JobInv, Supported, OnTrack, Render, Load, Units, Cursor, Done, Final, Enter, Fresh, Matches, FinalOnDisk;
    AliveIsLast(j, c);
    assert Supported(j.args) by { InvSupported(j); }
    var a, d, pc := j.args, j.disk, j.containers[c].proc.pc;
    if pc.resume {
      var s := OnDisk(a, d).value;
      LoadRender(a, s);
      OnTrackRunnable(a, s);
      assert Boot(a, true, d.main) == Ok(s);
      ProcChange(j, Alive(Looping(Enter(s), 0, 0)), [StartedLine]);
    } else {
      FreshOnTrack(a);
      FreshUnits(a);
      ProcChange(j, Alive(Looping(Enter(Fresh(a)), 0, 0)), [StartedLine]);
    }
  }

  lemma InvSupported(j: Job)
    requires JobInv(j)
    ensures Supported(j.args)
  {
  }

  lemma FreshUnits(a: Args)
    ensures Units(Enter(Fresh(a))) == 0
  {
  }

  lemma IterateKeeps(j: Job, c: nat)
    requires JobInv(j) && WorkerEnabled(j, c, Iterate)
    ensures JobInv(WorkerDo(j, c, Iterate))
  {
    hide JobInv, Supported, OnTrack, Render, OnDisk, Units, Cursor, Done, Advance, Final, FinalOnDisk, FileSound,
      SafeUnits, SafeCursor;
    AliveIsLast(j, c);
    assert Supported(j.args) by { InvSupported(j); }
    var a, d, pc := j.args, j.disk, j.containers[c].proc.pc;
    if Done(pc.mem) {
      ProcChange(j, Alive(Opening(pc.mem, pc.since, pc.epoch + 1, true)), []);
    } else {
      AdvanceOnTrack(a, pc.mem);
      TickAtMostOne(pc.mem);
      var n := pc.since + Tick(pc.mem);
      if Tick(pc.mem) > 0 && n >= Cadence(a) {
        ProcChange(j, Alive(Opening(Advance(pc.mem), n, pc.epoch + 1, false)), []);
      } else {
        ProcChange(j, Alive(Looping(Advance(pc.mem), n, pc.epoch)), []);
      }
    }
  }

  lemma QuietKeeps(j: Job, c: nat, s: WorkerStep)
    requires JobInv(j) && WorkerEnabled(j, c, s) && (s.Finish? || s.Exit? || s.WriteFails? || s.Killed?)
    ensures JobInv(WorkerDo(j, c, s))
  {
    hide JobInv, Supported, OnTrack, Render, OnDisk, Units, Cursor, Done, Final, FileSound, Ahead;
    AliveIsLast(j, c);
    assert Supported(j.args) by { InvSupported(j); }
    var pc := j.containers[c].proc.pc;
    match s
    case Finish =>
      DoneIsFinal(j.args, pc.mem);
      ProcChange(j, Alive(Exiting), [CompletedLine]);
    case Exit => ProcChange(j, Exited(0), []);
    case WriteFails => ProcChange(j, Exited(5), []);
    case Killed(code) => ProcChange(j, Exited(code), []);
  }

  lemma AnnounceKeeps(j: Job, c: nat)
    requires JobInv(j) && WorkerEnabled(j, c, Announce)
    ensures JobInv(WorkerDo(j, c, Announce))
  {
    hide JobInv, Supported, OnTrack, Render, Load, Units, Cursor, Done, Final, Found, AtCursor, FinalOnDisk, Matches;
    AliveIsLast(j, c);
    assert Supported(j.args) by { InvSupported(j); }
    var a, d, pc := j.args, j.disk, j.containers[c].proc.pc;
    LoadRender(a, pc.mem);
    assert OnDisk(a, d) == Some(pc.mem);
    OnTrackAtCursor(a, pc.mem);
    var l := CheckpointLine(pc.epoch, Found(pc.mem), Cursor(pc.mem));
    assert AnnouncedAt(a, l.next, l.found, SafeCursor(a, d));
    assert LogSound(a, d, [l]);
    ProcChange(j, Alive(if pc.final then Finishing(pc.mem) else Looping(pc.mem, 0, pc.epoch)), [l]);
  }

  /** Changing only the temporary file, and the worker's position with it. */
  lemma TmpChange(j: Job, pc: Pc, tmp: Option<seq<byte>>)
    requires JobInv(j) && j.containers != [] && Last(j.containers).proc.Alive?
    requires PcSound(j.args, j.disk.(tmp := tmp), pc) && !Last(j.containers).proc.pc.Exiting?
    ensures JobInv(WithPc(j, |j.containers| - 1, Alive(pc), []).(disk := j.disk.(tmp := tmp)))
  {
    hide Supported, OnTrack, Render, Load, Units, Cursor, Done, Final, Found, AtCursor;
    var n := |j.containers| - 1;
    assert j.containers[n].proc.Alive? && !NoneAlive(j);
    var e := j.disk.(tmp := tmp);
    var k := WithPc(j, n, Alive(pc), []).(disk := e);
    assert OnDisk(j.args, e) == OnDisk(j.args, j.disk);
    assert CompletedLine !in Last(j.containers).log;
    assert k.containers[n].log == j.containers[n].log;
    LogsGrow(j.args, j.disk, e, j.containers);
    RecordGrows(j.args, j.disk, e, j.row);
    assert ContainersSound(k.args, k.disk, k.containers);
  }

  /** Announcements stay justified while the file on disk only moves forward. */
  lemma LogsGrow(a: Args, d: Disk, e: Disk, cs: seq<Container>)
    requires SafeCursor(a, d) <= SafeCursor(a, e) && (d.main.Some? ==> e.main.Some?)
    requires forall c :: 0 <= c < |cs| ==> LogSound(a, d, cs[c].log)
    ensures forall c :: 0 <= c < |cs| ==> LogSound(a, e, cs[c].log)
  {
    hide SafeCursor, OnTrack, AtCursor, Found;
    forall c | 0 <= c < |cs| ensures LogSound(a, e, cs[c].log) {
      assert LogSound(a, d, cs[c].log);
      forall i | 0 <= i < |cs[c].log| ensures LineSound(a, e, cs[c].log[i]) {
        assert LineSound(a, d, cs[c].log[i]);
      }
    }
  }

  lemma RecordGrows(a: Args, d: Disk, e: Disk, r: Row)
    requires SafeCursor(a, d) <= SafeCursor(a, e) && (d.main.Some? ==> e.main.Some?) && RecordSound(a, d, r)
    ensures RecordSound(a, e, r)
  {
    hide SafeCursor, OnTrack, AtCursor, Found;
    if CkptAt in r.cols {
      var c: u64 :| AnnouncedAt(a, c, r.cols[CkptFound].i, SafeCursor(a, d));
      assert AnnouncedAt(a, c, r.cols[CkptFound].i, SafeCursor(a, e));
    }
  }

  lemma OpenKeeps(j: Job, c: nat)
    requires JobInv(j) && WorkerEnabled(j, c, Open)
    ensures JobInv(WorkerDo(j, c, Open))
  {
    hide JobInv, Supported, OnTrack, Render, Load, Units, Cursor, Done, Final, FinalOnDisk, FileSound;
    AliveIsLast(j, c);
    assert Supported(j.args) by { InvSupported(j); }
    var pc := j.containers[c].proc.pc;
    var e := j.disk.(tmp := Some([]));
    assert OnDisk(j.args, e) == OnDisk(j.args, j.disk);
    assert Render(pc.mem)[..0] == [];
    TmpChange(j, Writing(pc.mem, pc.since, pc.epoch, pc.final, 0), Some([]));
  }

  lemma WriteKeeps(j: Job, c: nat, n: nat)
    requires JobInv(j) && WorkerEnabled(j, c, Write(n))
    ensures JobInv(WorkerDo(j, c, Write(n)))
  {
    hide JobInv, Supported, OnTrack, Render, Load, Units, Cursor, Done, Final, FinalOnDisk, FileSound;
    AliveIsLast(j, c);
    assert Supported(j.args) by { InvSupported(j); }
    var pc := j.containers[c].proc.pc;
    var b, w := Render(pc.mem), pc.written;
    assert b[..w + n] == b[..w] + b[w..w + n];
    var e := j.disk.(tmp := Some(b[..w + n]));
    assert OnDisk(j.args, e) == OnDisk(j.args, j.disk);
    TmpChange(j, pc.(written := w + n), Some(b[..w + n]));
  }

  /** Publishing: the complete temporary file becomes the state file in one step. */
  lemma RenameKeeps(j: Job, c: nat)
    requires JobInv(j) && WorkerEnabled(j, c, Rename)
    ensures JobInv(WorkerDo(j, c, Rename))
  {
    hide Supported, OnTrack, Render, Load, Units, Cursor, Done, Final, Found, AtCursor, Matches;
    AliveIsLast(j, c);
    var a, d, pc := j.args, j.disk, j.containers[c].proc.pc;
    var b := Render(pc.mem);
    assert b[..|b|] == b;
    var e := Disk(j.disk.tmp, None);
    var k := WorkerDo(j, c, Rename);
    assert !NoneAlive(j) && e.main == Some(b);
    LoadRender(a, pc.mem);
    assert OnDisk(a, e) == Some(pc.mem);
    assert CompletedLine !in Last(j.containers).log;
    assert k.containers[c].log == j.containers[c].log;
    LogsGrow(a, d, e, j.containers);
    RecordGrows(a, d, e, j.row);
    assert ContainersSound(a, e, k.containers);
  }

  lemma WorkerKeeps(j: Job, c: nat, s: WorkerStep)
    requires JobInv(j) && WorkerEnabled(j, c, s)
    ensures JobInv(WorkerDo(j, c, s))
    ensures var k := WorkerDo(j, c, s); k.stream == j.stream && k.scan == j.scan && k.starting == j.starting
  {
    hide JobInv;
    match s
    case BootStep => BootKeeps(j, c);
    case Iterate => IterateKeeps(j, c);
    case Open => OpenKeeps(j, c);
    case Write(n) => WriteKeeps(j, c, n);
    case Rename => RenameKeeps(j, c);
    case Announce => AnnounceKeeps(j, c);
    case Finish => QuietKeeps(j, c, s);
    case Exit => QuietKeeps(j, c, s);
    case WriteFails => QuietKeeps(j, c, s);
    case Killed(_) => QuietKeeps(j, c, s);
  }

  // ---------------------------------------------------------------- controller steps keep the invariant

  /** A transition never touches the checkpoint columns. */
  lemma MovedKeeps(r: Row, next: JobState, setters: map<Column, Value>, now: int)
    requires setters.Keys <= SETTABLE
    ensures var m := Moved(r, next, setters, now);
            && m.state == (if IsValidTransition(r.state, next) then next else r.state)
            && (forall c :: c in {CkptAt, CkptPath, CkptFound} ==>
                  (c in m.cols <==> c in r.cols) && (c in r.cols ==> m.cols[c] == r.cols[c]))
  {
    hide IsValidTransition;
  }

  lemma RecordMoved(a: Args, d: Disk, r: Row, next: JobState, setters: map<Column, Value>, now: int)
    requires setters.Keys <= SETTABLE && RecordSound(a, d, r)
    ensures RecordSound(a, d, Moved(r, next, setters, now))
    ensures HasCheckpoint(Moved(r, next, setters, now)) == HasCheckpoint(r)
  {
    hide AnnouncedAt, Moved, SafeCursor;
    MovedKeeps(r, next, setters, now);
    if CkptAt in r.cols {
      var c: u64 :| AnnouncedAt(a, c, r.cols[CkptFound].i, SafeCursor(a, d));
      var m := Moved(r, next, setters, now);
      assert AnnouncedAt(a, c, m.cols[CkptFound].i, SafeCursor(a, d));
    }
  }

  /** Replacing the row, the stream and the scan entry while disk and containers stay. */
  lemma RowChange(j: Job, k: Job)
    requires JobInv(j) && k == j.(row := k.row, stream := k.stream, scan := k.scan, starting := k.starting)
    requires RecordSound(k.args, k.disk, k.row) && RowSound(k) && ControlSound(k)
    ensures JobInv(k)
  {
    hide Supported, FileSound, RecordSound, ContainersSound, RowSound, ControlSound;
  }

  lemma LaunchSettable(self: Starter, container: nat)
    ensures LaunchColumns(self, container).Keys <= SETTABLE
  {
  }

  lemma LaunchKeeps(j: Job, self: Starter, now: int)
    requires JobInv(j) && j.scan.None? && (j.row.state == Pending || j.row.state == InterruptedResumable)
    ensures JobInv(Launched(j, self, now))
  {
    hide Supported, FileSound, FinalOnDisk, LineSound, AnnouncedAt, Moved;
    var k, a, d := Launched(j, self, now), j.args, j.disk;
    var setters := LaunchColumns(self, |j.containers|);
    LaunchSettable(self, |j.containers|);
    MovedKeeps(j.row, Running, setters, now);
    RecordMoved(a, d, j.row, Running, setters, now);
    assert Last(k.containers).log == [] && Last(k.containers).proc.Alive?;
    forall c | 0 <= c < |k.containers| ensures k.containers[c].proc.Alive? ==> c + 1 == |k.containers| {
      assert c < |j.containers| ==> !j.containers[c].proc.Alive?;
    }
    assert ContainersSound(a, d, k.containers);
  }

  lemma MoveKeeps(j: Job, s: ControllerStep)
    requires JobInv(j) && ControllerEnabled(j, s)
             && (s.StartFails? || s.StreamLost? || s.CancelJob? || s.MarkInterrupted?)
    ensures JobInv(ControllerDo(j, s))
  {
    hide Supported, FileSound, RecordSound, ContainersSound, FinalOnDisk, Moved;
    var k := ControllerDo(j, s);
    var setters := if s.StartFails? then map[ExitCode := Int(-1)] else map[];
    var next := if s.StartFails? || s.StreamLost? then Failed else if s.CancelJob? then Cancelled
                else if HasCheckpoint(j.row) then InterruptedResumable else InterruptedUnresumable;
    MovedKeeps(j.row, next, setters, s.now);
    RecordMoved(j.args, j.disk, j.row, next, setters, s.now);
    RowChange(j, k);
  }

  lemma RefusedKeeps(j: Job)
    requires JobInv(j) && ControllerEnabled(j, StartRefused)
    ensures JobInv(ControllerDo(j, StartRefused))
  {
    hide Supported, FileSound, RecordSound, ContainersSound, FinalOnDisk;
    RowChange(j, ControllerDo(j, StartRefused));
  }

  lemma ReadKeeps(j: Job, stored: bool, now: int)
    requires JobInv(j) && ControllerEnabled(j, ReadLine(stored, now))
    ensures JobInv(ControllerDo(j, ReadLine(stored, now)))
  {
    hide Supported, FileSound, FinalOnDisk, AnnouncedAt, SafeCursor, LastSound;
    var k, st := ControllerDo(j, ReadLine(stored, now)), j.stream.value;
    var l := j.containers[st.cid].log[st.pos];
    assert LogSound(j.args, j.disk, j.containers[st.cid].log);
    assert LineSound(j.args, j.disk, l);
    if stored && Decodes(l) {
      var c: u64 := l.next;
      assert AnnouncedAt(j.args, c, k.row.cols[CkptFound].i, SafeCursor(j.args, j.disk));
    }
    RowChange(j, k);
  }

  lemma EndKeeps(j: Job, removed: bool, now: int)
    requires JobInv(j) && ControllerEnabled(j, StreamEnds(removed, now))
    ensures JobInv(ControllerDo(j, StreamEnds(removed, now)))
  {
    hide Supported, FileSound, RecordSound, FinalOnDisk, LogSound, Moved;
    var k, st := ControllerDo(j, StreamEnds(removed, now)), j.stream.value;
    var p := j.containers[st.cid].proc;
    if p.Alive? {
      RowChange(j, k);
    } else {
      var next := if p.code == 0 || st.sawCompleted then Completed else Failed;
      MovedKeeps(j.row, next, map[ExitCode := Int(p.code)], now);
      RecordMoved(j.args, j.disk, j.row, next, map[ExitCode := Int(p.code)], now);
      assert Last(j.containers) == j.containers[st.cid];
      assert NoneAlive(j);
      assert ContainersSound(k.args, k.disk, k.containers);
    }
  }

  lemma ScanKeeps(j: Job, launch: Option<Starter>, now: int)
    requires JobInv(j) && ControllerEnabled(j, ScanRow(launch, now))
    ensures JobInv(ControllerDo(j, ScanRow(launch, now)))
  {
    hide Supported, FileSound, RecordSound, ContainersSound, FinalOnDisk, Moved, Launched;
    var s := ScanRow(launch, now);
    var k := j.(scan := None);
    RowChange(j, k);
    match Decision(j)
    case Adopt(_) =>
      RowChange(j, ControllerDo(j, s));
    case MarkResumable =>
      MovedKeeps(j.row, InterruptedResumable, map[], now);
      RecordMoved(j.args, j.disk, j.row, InterruptedResumable, map[], now);
      var m := k.(row := Moved(j.row, InterruptedResumable, map[], now));
      RowChange(j, m);
      if launch.Some? { LaunchKeeps(m, launch.value, now); }
    case MarkUnresumable =>
      MovedKeeps(j.row, InterruptedUnresumable, map[], now);
      RecordMoved(j.args, j.disk, j.row, InterruptedUnresumable, map[], now);
      RowChange(j, ControllerDo(j, s));
    case Resume =>
      if launch.Some? { LaunchKeeps(k, launch.value, now); }
    case Leave =>
  }

  lemma StartingUnscanned(j: Job)
    requires JobInv(j) && j.starting
    ensures j.scan.None?
  {
    hide Supported, FileSound, RecordSound, ContainersSound, RowSound;
  }

  lemma ControllerKeeps(j: Job, s: ControllerStep)
    requires JobInv(j) && ControllerEnabled(j, s)
    ensures JobInv(ControllerDo(j, s))
  {
    hide JobInv;
    match s
    case Launch(self, now) =>
      StartingUnscanned(j);
      LaunchKeeps(j, self, now);
    case StartFails(_) => MoveKeeps(j, s);
    case StartRefused => RefusedKeeps(j);
    case ReadLine(stored, now) => ReadKeeps(j, stored, now);
    case StreamEnds(removed, now) => EndKeeps(j, removed, now);
    case StreamLost(_) => MoveKeeps(j, s);
    case CancelJob(_) => MoveKeeps(j, s);
    case MarkInterrupted(_) => MoveKeeps(j, s);
    case ScanRow(launch, now) => ScanKeeps(j, launch, now);
  }

  // ---------------------------------------------------------------- whole runs

  lemma NewJobSound(a: Args, now: int)
    requires Supported(a)
    ensures JobInv(NewJob(a, now))
  {
    hide Supported;
  }

  lemma CrashKeeps(j: Job)
    requires JobInv(j)
    ensures JobInv(Forgotten(j))
  {
    hide Supported, FileSound, RecordSound, ContainersSound, FinalOnDisk;
    RowChange(j, Forgotten(j));
  }

  lemma RestartKeeps(j: Job, l: Option<Listed>)
    requires JobInv(j) && j.stream.None? && !j.starting && TrueListing(j, l)
    ensures JobInv(j.(scan := Some(l)))
  {
    hide Supported, FileSound, RecordSound, FinalOnDisk, LogSound, LastSound;
    var k := j.(scan := Some(l));
    assert ControlSound(k);
    RowChange(j, k);
  }

  lemma NextKeeps(w: World, e: SystemEvent, v: World)
    requires WorldInv(w) && Next(w, e, v)
    ensures WorldInv(v)
  {
    hide JobInv, WorkerEnabled, ControllerEnabled, WorkerDo, ControllerDo, TrueListing, NewJob;
    match e
    case Create(id, a, now) =>
      NewJobSound(a, now);
    case Work(id, c, s) => WorkerKeeps(w.jobs[id], c, s);
    case Control(id, s) => ControllerKeeps(w.jobs[id], s);
    case ControllerCrash =>
      forall id | id in w.jobs ensures JobInv(v.jobs[id]) { CrashKeeps(w.jobs[id]); }
    case ControllerRestart(ls) =>
      forall id | id in w.jobs ensures JobInv(v.jobs[id]) { RestartKeeps(w.jobs[id], ls[id]); }
  }

  /** The invariant holds in every state of every run. */
  lemma {:induction false} RunsSound(ws: seq<World>, es: seq<SystemEvent>, i: nat)
    requires Execution(ws, es) && i < |ws|
    ensures WorldInv(ws[i])
  {
    hide WorldInv, Next;
    if i == 0 {
      EmptyWorldSound();
    } else {
      RunsSound(ws, es, i - 1);
      assert Next(ws[i - 1], es[i - 1], ws[i]);
      NextKeeps(ws[i - 1], es[i - 1], ws[i]);
    }
  }

  lemma EmptyWorldSound()
    ensures WorldInv(World(true, map[]))
  {
  }

  lemma JobSound(ws: seq<World>, es: seq<SystemEvent>, i: nat, id: string)
    requires Execution(ws, es) && i < |ws| && id in ws[i].jobs
    ensures JobInv(ws[i].jobs[id])
  {
    hide JobInv, Execution;
    RunsSound(ws, es, i);
  }
}

/** What the transition system of JobSystem guarantees in every state of every run. */
module Guarantees {
  import opened Words
  import opened Workers
  import opened Store
  import opened JobSystem
  import Sieve
  import Numbers = Primes

  // ---------------------------------------------------------------- safety over whole runs

  /** The bytes that one uninterrupted run with these arguments leaves in the state file. */
  ghost function UninterruptedFile(a: Args): seq<byte>
    requires Supported(a)
  {
    FreshOnTrack(a);
    OnTrackRunnable(a, Enter(Fresh(a)));
    EmissionsOnTrack(a, Cadence(a), Enter(Fresh(a)), 0);
    FinalDone(a);
    Render(Last(Emissions(Cadence(a), Enter(Fresh(a)), 0)))
  }

  /** Crash transparency: in every state of every run, a job whose row is completed has on disk exactly
      the bytes of one uninterrupted run, whatever crashed and resumed before. */
  lemma CrashTransparency(ws: seq<World>, es: seq<SystemEvent>, i: nat, id: string)
    requires Execution(ws, es) && i < |ws| && id in ws[i].jobs
    requires ws[i].jobs[id].row.state == Completed
    ensures Supported(ws[i].jobs[id].args)
    ensures ws[i].jobs[id].disk.main == Some(UninterruptedFile(ws[i].jobs[id].args))
  {
    hide Execution, UninterruptedFile, Supported, OnTrack, Render, Final;
    JobSound(ws, es, i, id);
    FinalIsUninterrupted(ws[i].jobs[id].args);
  }

  /** A resume is never refused: no worker of any run exits with code 3 (parameter mismatch) or 4
      (unreadable checkpoint), and at every moment at most one worker of a job is alive. */
  lemma ResumeNeverRefused(ws: seq<World>, es: seq<SystemEvent>, i: nat, id: string)
    requires Execution(ws, es) && i < |ws| && id in ws[i].jobs
    ensures var cs := ws[i].jobs[id].containers;
            && (forall c :: 0 <= c < |cs| ==> cs[c].proc != Exited(3) && cs[c].proc != Exited(4))
            && (forall c, e :: 0 <= c < |cs| && 0 <= e < |cs| && cs[c].proc.Alive? && cs[e].proc.Alive? ==> c == e)
  {
    hide Execution, Supported, LogSound, LastSound;
    JobSound(ws, es, i, id);
  }

  /** Interruption dichotomy: interrupted_resumable rows have a recorded checkpoint and path,
      interrupted_unresumable rows have none, and neither has a live worker. */
  lemma InterruptionDichotomy(ws: seq<World>, es: seq<SystemEvent>, i: nat, id: string)
    requires Execution(ws, es) && i < |ws| && id in ws[i].jobs
    ensures var j := ws[i].jobs[id];
            && (j.row.state == InterruptedResumable ==> CkptAt in j.row.cols && CkptPath in j.row.cols && NoneAlive(j))
            && (j.row.state == InterruptedUnresumable ==>
                CkptAt !in j.row.cols && CkptPath !in j.row.cols && NoneAlive(j))
  {
    hide Execution, Supported, ContainersSound, FinalOnDisk, AnnouncedAt;
    JobSound(ws, es, i, id);
  }

  /** The progress a live worker holds only in memory. */
  ghost predicate InMemory(p: Proc, s: State) {
    p.Alive? && !p.pc.Booting? && !p.pc.Exiting? && p.pc.mem == s
  }

  /** Bounded loss: at whatever point a worker dies, at most one cadence of progress is not on disk. */
  lemma BoundedLoss(ws: seq<World>, es: seq<SystemEvent>, i: nat, id: string, c: nat, s: State)
    requires Execution(ws, es) && i < |ws| && id in ws[i].jobs && c < |ws[i].jobs[id].containers|
    requires InMemory(ws[i].jobs[id].containers[c].proc, s)
    ensures var j := ws[i].jobs[id];
            SafeUnits(j.args, j.disk) <= Units(s) <= SafeUnits(j.args, j.disk) + Cadence(j.args)
  {
    hide Execution, OnTrack, Render, Load, Units, Cursor, Final, Done, Supported, JobInv, Matches;
    JobSound(ws, es, i, id);
    var j := ws[i].jobs[id];
    InvSupported(j);
    AliveIsLast(j, c);
    var pc := j.containers[c].proc.pc;
    if pc.Announcing? || pc.Finishing? { LoadRender(j.args, s); }
  }

  ghost predicate TwoAlive(j: Job) {
    exists c, e :: 0 <= c < e < |j.containers| && j.containers[c].proc.Alive? && j.containers[e].proc.Alive?
  }

  /** Why the scan needs a true listing: if the daemon's failure is taken for an empty listing, the scan puts
      two live workers on one file if and only if it launches, the row is running or checkpointing with a
      recorded checkpoint, and a worker is alive. */
  lemma FailedListingDoublesIff(j: Job, launch: Option<Starter>, now: int)
    requires JobInv(j) && j == Forgotten(j)
    ensures TwoAlive(ControllerDo(j.(scan := Some(None)), ScanRow(launch, now))) <==>
            && launch.Some? && (j.row.state == Running || j.row.state == Checkpointing)
            && HasCheckpoint(j.row) && !NoneAlive(j)
  {
    hide Moved, HasCheckpoint, JobInv, LaunchColumns;
    var l := j.(scan := Some(None));
    var k, n := ControllerDo(l, ScanRow(launch, now)), |j.containers|;
    OnlyLastAlive(j);
    MovedKeeps(j.row, InterruptedResumable, map[], now);
    if k.containers == j.containers {
      assert !TwoAlive(k);
    } else {
      assert k.containers[..n] == j.containers && k.containers[n].proc.Alive?;
      if !NoneAlive(j) {
        assert k.containers[n - 1] == j.containers[n - 1];
        assert TwoAlive(k);
      } else {
        assert forall c :: 0 <= c < n ==> k.containers[c] == j.containers[c];
      }
    }
  }

  lemma OnlyLastAlive(j: Job)
    requires JobInv(j)
    ensures forall c :: 0 <= c < |j.containers| && j.containers[c].proc.Alive? ==> c + 1 == |j.containers|
    ensures !NoneAlive(j) ==> j.containers != [] && Last(j.containers).proc.Alive?
    ensures j.row.state == InterruptedResumable ==> NoneAlive(j)
  {
    hide Supported, FileSound, RecordSound, LogSound, LastSound, ControlSound, FinalOnDisk;
  }

  /** For a completed sieve the file says how many primes there are up to the limit, and which were last. */
  lemma CompletedSieve(ws: seq<World>, es: seq<SystemEvent>, i: nat, id: string)
    requires Execution(ws, es) && i < |ws| && id in ws[i].jobs
    requires ws[i].jobs[id].row.state == Completed && ws[i].jobs[id].args.worker == Primes
    ensures var j := ws[i].jobs[id]; var all := PrimesUpTo(j.args.limit);
            && OnDisk(j.args, j.disk).Some? && OnDisk(j.args, j.disk).value.PrimesState?
            && OnDisk(j.args, j.disk).value.p.found == |all|
            && OnDisk(j.args, j.disk).value.p.recent == Tail(all, 32)
  {
    hide Execution, OnTrack, Render, Load, Matches, Sieve.OnTrack;
    var j := ws[i].jobs[id];
    JobSound(ws, es, i, id);
    LoadRender(j.args, Final(j.args));
    Sieve.FinalMeaning(j.args.limit);
  }

  function PrimesUpTo(limit: u64): seq<nat> {
    Numbers.PrimesBelow(limit + 1)
  }

  /** A kill after any number of partial writes leaves the whole old or the whole new file: no event of a
      run changes the state file except a rename, and that installs the complete rendering of a state. */
  lemma AtomicPublish(ws: seq<World>, es: seq<SystemEvent>, i: nat, id: string)
    requires Execution(ws, es) && i < |es| && id in ws[i].jobs
    ensures id in ws[i + 1].jobs
    ensures var d := ws[i].jobs[id].disk; var k := ws[i + 1].jobs[id];
            d.main == k.disk.main ||
            (es[i].Work? && es[i].id == id && es[i].step.Rename? && OnDisk(k.args, k.disk).Some?
              && Holds(k.args, k.disk, OnDisk(k.args, k.disk).value))
  {
    hide Execution, OnTrack, Render, Load;
    StepOf(ws, es, i);
    var e := es[i];
    if e.Work? && e.id == id {
      OnlyRenamePublishes(ws[i].jobs[id], e.container, e.step);
      JobSound(ws, es, i, id);
      AliveIsLast(ws[i].jobs[id], e.container);
      JobSound(ws, es, i + 1, id);
    } else if e.Control? && e.id == id {
      ControllerLeavesDisk(ws[i].jobs[id], e.cstep);
    }
  }

  lemma StepOf(ws: seq<World>, es: seq<SystemEvent>, i: nat)
    requires Execution(ws, es) && i < |es|
    ensures |ws| == |es| + 1 && Next(ws[i], es[i], ws[i + 1])
  {
  }

  lemma OnlyRenamePublishes(j: Job, c: nat, s: WorkerStep)
    requires WorkerEnabled(j, c, s)
    ensures WorkerDo(j, c, s).disk.main == j.disk.main || (s.Rename? && WorkerDo(j, c, s).disk.main.Some?)
            || (s.Rename? && j.disk.tmp.None?)
  {
    hide Boot, Advance, Tick, Done, Render;
  }

  lemma WorkerLeavesRow(j: Job, c: nat, s: WorkerStep)
    requires WorkerEnabled(j, c, s)
    ensures WorkerDo(j, c, s).row == j.row
  {
    hide Boot, Advance, Tick, Done, Render;
  }

  lemma ControllerLeavesDisk(j: Job, s: ControllerStep)
    requires ControllerEnabled(j, s)
    ensures ControllerDo(j, s).disk == j.disk
  {
    hide Moved, Decision;
  }

  // ---------------------------------------------------------------- recorded progress after re-reading a log

  /** The last line that could be decoded and whose record went through. */
  function LastStored(log: seq<Line>, stored: seq<bool>): (r: Option<nat>)
    requires |stored| == |log|
    ensures r.Some? ==> r.value < |log| && stored[r.value] && Decodes(log[r.value])
    ensures forall i :: (if r.Some? then r.value + 1 else 0) <= i < |log| ==> !(stored[i] && Decodes(log[i]))
  {
    var n := |log| - 1;
    if log == [] then None
    else if stored[n] && Decodes(log[n]) then Some(n)
    else LastStored(log[..n], stored[..n])
  }

  /** The row after reading log, if record i succeeds as stored[i] says and at time clock[i]. */
  function Recorded(row: Row, log: seq<Line>, stored: seq<bool>, clock: seq<int>): Row
    requires |stored| == |log| == |clock|
  {
    match LastStored(log, stored)
    case None => row
    case Some(i) => CheckpointRow(row, log[i].epoch, log[i].found, "state.bin", clock[i])
  }

  lemma RecordedNone(row: Row)
    ensures Recorded(row, [], [], []) == row
  {
  }

  /** One more line: a stored checkpoint replaces the recorded one completely. */
  lemma RecordedNext(row: Row, log: seq<Line>, stored: seq<bool>, clock: seq<int>)
    requires log != [] && |stored| == |log| == |clock|
    ensures var n := |log| - 1; var r := Recorded(row, log[..n], stored[..n], clock[..n]);
            Recorded(row, log, stored, clock) ==
            if stored[n] && Decodes(log[n]) then CheckpointRow(r, log[n].epoch, log[n].found, "state.bin", clock[n])
              else r
  {
    hide Decodes;
  }

  /** The reading loop of runStream over a whole log: a failed record is only logged, and each one has its
      own clock reading. Re-attachment starts again at the first line, so the recorded checkpoint may step
      back for a while, but after the last line it is that of the last line stored, and the completion line
      has been noticed exactly if it is there. */
  method RunStream(log: seq<Line>, row: Row, stored: seq<bool>, clock: seq<int>) returns (out: Row, sawCompleted: bool)
    requires |stored| == |log| == |clock|
    ensures sawCompleted <==> CompletedLine in log
    ensures out == Recorded(row, log, stored, clock)
  {
    hide Recorded, CheckpointRow;
    out, sawCompleted := row, false;
    RecordedNone(row);
    for i := 0 to |log|
      invariant sawCompleted <==> CompletedLine in log[..i]
      invariant out == Recorded(row, log[..i], stored[..i], clock[..i])
    {
      PrefixNext(log, i);
      PrefixNext(stored, i);
      PrefixNext(clock, i);
      RecordedNext(row, log[..i + 1], stored[..i + 1], clock[..i + 1]);
      match log[i]
      case CheckpointLine(epoch, found, next) =>
        if Decodes(log[i]) && stored[i] { out := CheckpointRow(out, epoch, found, "state.bin", clock[i]); }
      case CompletedLine => sawCompleted := true;
      case StartedLine =>
    }
    assert log[..|log|] == log && stored[..|log|] == stored && clock[..|log|] == clock;
  }

  lemma PrefixNext<T>(s: seq<T>, i: nat)
    requires i < |s|
    ensures s[..i + 1][..i] == s[..i] && s[..i + 1][i] == s[i] && s[..i + 1] == s[..i] + [s[i]]
  {
  }

  /** The steps of the transition system read a log to the same effect. */
  lemma {:induction false} DrainLog(j: Job, log: seq<Line>, stored: seq<bool>, clock: seq<int>)
    returns (ms: seq<Move>, k: Job)
    requires j.stream.Some? && j.stream.value.cid < |j.containers|
    requires j.stream.value.pos <= |j.containers[j.stream.value.cid].log|
    requires log <= j.containers[j.stream.value.cid].log[j.stream.value.pos..] && |stored| == |log| == |clock|
    ensures Leads(j, ms, k) && k == j.(row := k.row, stream := k.stream)
    ensures var st := j.stream.value;
            k.stream == Some(Stream(st.cid, st.pos + |log|, st.sawCompleted || CompletedLine in log))
    ensures k.row == Recorded(j.row, log, stored, clock)
    decreases |log|
  {
    hide ControllerDo, ControllerEnabled, Recorded, CheckpointRow, Leads;
    if log == [] {
      ms, k := [], j;
      LeadsNowhere(j);
      RecordedNone(j.row);
    } else {
      var n := |log| - 1;
      var ns, m := DrainLog(j, log[..n], stored[..n], clock[..n]);
      var s := ReadLine(stored[n], clock[n]);
      k := ReadOne(m, stored[n], clock[n]);
      LeadsNowhere(k);
      LeadsController(m, s, [], k);
      LeadsTrans(j, ns, m, [ByController(s)] + [], k);
      ms := ns + ([ByController(s)] + []);
      RecordedNext(j.row, log, stored, clock);
      assert log == log[..n] + [log[n]];
    }
  }

  lemma ReadOne(j: Job, stored: bool, now: int) returns (m: Job)
    requires j.stream.Some? && j.stream.value.cid < |j.containers|
    requires j.stream.value.pos < |j.containers[j.stream.value.cid].log|
    ensures ControllerEnabled(j, ReadLine(stored, now)) && m == ControllerDo(j, ReadLine(stored, now))
    ensures var st := j.stream.value; var l := j.containers[st.cid].log[st.pos];
            && (stored && Decodes(l) ==> l.CheckpointLine?)
            && m == j.(stream := Some(Stream(st.cid, st.pos + 1, st.sawCompleted || l == CompletedLine)),
                       row := if stored && Decodes(l) then CheckpointRow(j.row, l.epoch, l.found, "state.bin", now)
                              else j.row)
  {
    hide CheckpointRow;
    m := ControllerDo(j, ReadLine(stored, now));
  }

  // ---------------------------------------------------------------- recoverability

  datatype Move = ByWorker(container: nat, step: WorkerStep) | ByController(cstep: ControllerStep)

  /** The moves lead from j to k. */
  ghost predicate Leads(j: Job, ms: seq<Move>, k: Job)
    decreases |ms|
  {
    if ms == [] then j == k
    else match ms[0]
      case ByWorker(c, s) => WorkerEnabled(j, c, s) && Leads(WorkerDo(j, c, s), ms[1..], k)
      case ByController(s) => ControllerEnabled(j, s) && Leads(ControllerDo(j, s), ms[1..], k)
  }

  lemma LeadsWorker(j: Job, c: nat, s: WorkerStep, ms: seq<Move>, k: Job)
    requires WorkerEnabled(j, c, s) && Leads(WorkerDo(j, c, s), ms, k)
    ensures Leads(j, [ByWorker(c, s)] + ms, k)
  {
    hide WorkerEnabled, WorkerDo;
    assert ([ByWorker(c, s)] + ms)[1..] == ms;
  }

  lemma {:induction false} LeadsTrans(j: Job, ms: seq<Move>, k: Job, ns: seq<Move>, l: Job)
    requires Leads(j, ms, k) && Leads(k, ns, l)
    ensures Leads(j, ms + ns, l)
    decreases |ms|
  {
    hide WorkerEnabled, WorkerDo, ControllerEnabled, ControllerDo;
    if ms == [] {
      assert ms + ns == ns;
    } else {
      assert (ms + ns)[0] == ms[0] && (ms + ns)[1..] == ms[1..] + ns;
      match ms[0]
      case ByWorker(c, s) => LeadsTrans(WorkerDo(j, c, s), ms[1..], k, ns, l);
      case ByController(s) => LeadsTrans(ControllerDo(j, s), ms[1..], k, ns, l);
    }
  }

  /** The step a worker takes next when nothing goes wrong. */
  ghost function NextStep(pc: Pc): WorkerStep {
    match pc
    case Booting(_) => BootStep
    case Looping(_, _, _) => Iterate
    case Opening(_, _, _, _) => Open
    case Writing(mem, _, _, _, written) => if written < |Render(mem)| then Write(|Render(mem)| - written) else Rename
    case Announcing(_, _, _) => Announce
    case Finishing(_) => Finish
    case Exiting => Exit
  }

  /** How far a worker is from the end: iterations left, then position within the checkpoint. */
  function Distance(pc: Pc): nat {
    match pc
    case Booting(_) => 0
    case Looping(mem, _, _) => Remaining(mem)
    case Opening(mem, _, _, final) => if final then 0 else Remaining(mem)
    case Writing(mem, _, _, final, _) => if final then 0 else Remaining(mem)
    case Announcing(mem, _, final) => if final then 0 else Remaining(mem)
    case Finishing(_) => 0
    case Exiting => 0
  }

  ghost function Rank(pc: Pc): nat {
    match pc
    case Booting(_) => 20
    case Looping(_, _, _) => 10
    case Opening(_, _, _, final) => if final then 9 else 14
    case Writing(mem, _, _, final, written) =>
      (if final then 7 else 12) + if written < |Render(mem)| then 1 else 0
    case Announcing(_, _, final) => if final then 6 else 11
    case Finishing(_) => 5
    case Exiting => 4
  }

  function BootRank(pc: Pc): nat {
    if pc.Booting? then 1 else 0
  }

  /** Undisturbed, a live worker always has a next step, and it brings it closer to exit code 0. */
  ghost predicate Closer(j: Job, c: nat) {
    c < |j.containers| && j.containers[c].proc.Alive? &&
    var pc := j.containers[c].proc.pc; var s := NextStep(pc);
    WorkerEnabled(j, c, s) &&
    var k := WorkerDo(j, c, s);
    && k.row == j.row && k.stream == j.stream && k.scan == j.scan && |k.containers| == |j.containers|
    && (if pc.Exiting? then k.containers[c].proc == Exited(0)
        else k.containers[c].proc.Alive? &&
             var qc := k.containers[c].proc.pc;
             (BootRank(qc) < BootRank(pc) || (BootRank(qc) == BootRank(pc) &&
              (Distance(qc) < Distance(pc) || (Distance(qc) == Distance(pc) && Rank(qc) < Rank(pc))))))
  }

  lemma BootCloser(j: Job, c: nat)
    requires JobInv(j) && c < |j.containers| && j.containers[c].proc.Alive? && j.containers[c].proc.pc.Booting?
    ensures Closer(j, c)
  {
    hide JobInv, OnTrack, Render, Load, Units, Cursor, Done, Final, Enter, Fresh, Matches, FinalOnDisk, Distance, Rank;
    AliveIsLast(j, c);
    if j.containers[c].proc.pc.resume {
      LoadRender(j.args, OnDisk(j.args, j.disk).value);
    }
  }

  lemma IterateCloser(j: Job, c: nat)
    requires JobInv(j) && c < |j.containers| && j.containers[c].proc.Alive? && j.containers[c].proc.pc.Looping?
    ensures Closer(j, c)
  {
    hide JobInv, OnTrack, Render, OnDisk, Units, Cursor, Done, Advance, Final, Remaining, Runnable, SafeUnits,
      SafeCursor, Supported, Tick;
    AliveIsLast(j, c);
    InvSupported(j);
    var mem := j.containers[c].proc.pc.mem;
    OnTrackRunnable(j.args, mem);
    if Done(mem) { DoneRemaining(mem); } else { AdvanceRunnable(mem); }
  }

  lemma DoneRemaining(s: State)
    requires Done(s)
    ensures Remaining(s) == 0
  {
  }

  lemma SaveCloser(j: Job, c: nat)
    requires JobInv(j) && c < |j.containers| && j.containers[c].proc.Alive?
    requires var pc := j.containers[c].proc.pc; !pc.Booting? && !pc.Looping?
    ensures Closer(j, c)
  {
    hide JobInv, OnTrack, Render, OnDisk, Units, Cursor, Done, Final, Remaining, SafeUnits, SafeCursor, Supported,
      Found;
    AliveIsLast(j, c);
    InvSupported(j);
  }

  lemma {:induction false} WorkerCanFinish(j: Job, c: nat) returns (ms: seq<Move>, k: Job)
    requires JobInv(j) && c < |j.containers| && j.containers[c].proc.Alive?
    ensures Leads(j, ms, k) && JobInv(k) && k.row == j.row && k.stream == j.stream && k.scan == j.scan
    ensures |k.containers| == |j.containers| && k.containers[c].proc == Exited(0)
    decreases BootRank(j.containers[c].proc.pc), Distance(j.containers[c].proc.pc), Rank(j.containers[c].proc.pc)
  {
    hide JobInv, WorkerEnabled, WorkerDo, NextStep, Distance, Rank, Leads;
    var pc := j.containers[c].proc.pc;
    if pc.Booting? { BootCloser(j, c); } else if pc.Looping? { IterateCloser(j, c); } else { SaveCloser(j, c); }
    var s := NextStep(pc);
    var m := WorkerDo(j, c, s);
    WorkerKeeps(j, c, s);
    if pc.Exiting? {
      ms, k := [], m;
      LeadsNowhere(m);
    } else {
      ms, k := WorkerCanFinish(m, c);
    }
    LeadsWorker(j, c, s, ms, k);
    ms := [ByWorker(c, s)] + ms;
  }

  lemma LeadsNowhere(j: Job)
    ensures Leads(j, [], j)
  {
  }

  /** Undisturbed, a worker also passes the point where its final state is on disk and announced, but not yet
      its completion. */
  lemma {:induction false} WorkerCanAnnounce(j: Job, c: nat) returns (ms: seq<Move>, k: Job, epoch: nat)
    requires JobInv(j) && c < |j.containers| && j.containers[c].proc.Alive?
    requires !j.containers[c].proc.pc.Finishing? && !j.containers[c].proc.pc.Exiting?
    ensures Leads(j, ms, k) && JobInv(k) && k.row == j.row && k.stream == j.stream && k.scan == j.scan
    ensures |k.containers| == |j.containers| && k.containers[c].proc.Alive?
    ensures var p := k.containers[c];
            && p.proc.pc.Finishing? && p.log != []
            && Last(p.log) == CheckpointLine(epoch, Found(p.proc.pc.mem), Cursor(p.proc.pc.mem))
    decreases BootRank(j.containers[c].proc.pc), Distance(j.containers[c].proc.pc), Rank(j.containers[c].proc.pc)
  {
    hide JobInv, WorkerEnabled, WorkerDo, NextStep, Distance, Rank, Leads, Found, Cursor;
    var pc := j.containers[c].proc.pc;
    if pc.Booting? { BootCloser(j, c); } else if pc.Looping? { IterateCloser(j, c); } else { SaveCloser(j, c); }
    var s := NextStep(pc);
    var m := WorkerDo(j, c, s);
    WorkerKeeps(j, c, s);
    StepTowards(j, c);
    if pc.Announcing? && pc.final {
      ms, k, epoch := [], m, pc.epoch;
      LeadsNowhere(m);
    } else {
      ms, k, epoch := WorkerCanAnnounce(m, c);
    }
    LeadsWorker(j, c, s, ms, k);
    ms := [ByWorker(c, s)] + ms;
  }

  /** Only the announcement of a final state leads to the end of a worker. */
  lemma StepTowards(j: Job, c: nat)
    requires Closer(j, c) && !j.containers[c].proc.pc.Finishing? && !j.containers[c].proc.pc.Exiting?
    ensures var pc := j.containers[c].proc.pc; var p := WorkerDo(j, c, NextStep(pc)).containers[c];
            if pc.Announcing? && pc.final then
              && p.proc == Alive(Finishing(pc.mem)) && p.log != []
              && Last(p.log) == CheckpointLine(pc.epoch, Found(pc.mem), Cursor(pc.mem))
            else p.proc.Alive? && !p.proc.pc.Finishing? && !p.proc.pc.Exiting?
  {
    hide Found, Cursor, Distance, Rank, Advance, Tick, Done, Boot, Render;
  }

  lemma LeadsController(j: Job, s: ControllerStep, ms: seq<Move>, k: Job)
    requires ControllerEnabled(j, s) && Leads(ControllerDo(j, s), ms, k)
    ensures Leads(j, [ByController(s)] + ms, k)
  {
    hide ControllerEnabled, ControllerDo, WorkerEnabled, WorkerDo;
    assert ([ByController(s)] + ms)[1..] == ms;
  }

  lemma FinalIsUninterrupted(a: Args)
    requires Supported(a)
    ensures UninterruptedFile(a) == Render(Final(a))
  {
    hide Emissions, OnTrack, Render, Final, Runnable, Enter, Fresh, Supported;
    FreshOnTrack(a);
    OnTrackRunnable(a, Enter(Fresh(a)));
    EmissionsOnTrack(a, Cadence(a), Enter(Fresh(a)), 0);
    FinalDone(a);
  }
}

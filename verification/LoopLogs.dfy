/** The worker of the transition system runs the checkpointing loop: its checkpoint lines are, one by one, the
    snapshots that the loop emits with the cadence of the command line. */
module LoopLogs {
  import opened Words
  import opened Workers
  import opened JobSystem
  import opened Guarantees
  import opened Reports
  import Runners

  /** The snapshots of a run from s0. */
  function Snapshots(a: Args, s0: State): seq<State>
    requires Runnable(s0)
  {
    Emissions(if a.every == 0 then 1 else a.every, s0, 0)
  }

  /** What the loop has still to emit. */
  function Ahead(a: Args, s: State, since: nat): seq<State>
    requires Runnable(s)
  {
    Emissions(if a.every == 0 then 1 else a.every, s, since)
  }

  /** The n snapshots e[..n] have been taken, the last of them s, and the loop goes on behind it or is over. */
  predicate Taken(a: Args, e: seq<State>, n: nat, s: State, final: bool) {
    && 1 <= n <= |e| && e[n - 1] == s
    && (if final then n == |e| else Runnable(s) && e[n..] == Ahead(a, s, 0))
  }

  /** A worker at pc with a run of snapshots e. */
  predicate At(a: Args, e: seq<State>, pc: Pc, lines: nat) {
    match pc
    case Booting(_) => true
    case Looping(mem, since, epoch) => epoch <= |e| && Runnable(mem) && e[epoch..] == Ahead(a, mem, since)
    case Opening(mem, _, epoch, final) => Taken(a, e, epoch, mem, final)
    case Writing(mem, _, epoch, final, _) => Taken(a, e, epoch, mem, final)
    case Announcing(mem, epoch, final) => Taken(a, e, epoch, mem, final)
    case Finishing(_) => lines == |e| + 1
    case Exiting => true
  }

  /** The checkpoint lines name the cursors of the snapshots in turn. */
  predicate Names(e: seq<State>, log: seq<Line>) {
    && (forall k :: 1 <= k < |log| && log[k].CheckpointLine? ==> k <= |e| && log[k].next == Cursor(e[k - 1]))
    && (CompletedLine in log ==> |log| == |e| + 2)
  }

  ghost predicate Follows(a: Args, c: Container, s0: State) {
    && OnTrack(a, s0) && Runnable(s0) && Names(Snapshots(a, s0), c.log)
    && (c.proc.Alive? ==> At(a, Snapshots(a, s0), c.proc.pc, |c.log|))
  }

  /** Every container that got past its start follows the loop from some state on the path. */
  ghost predicate Faithful(a: Args, c: Container) {
    c.log != [] ==> exists s0 :: Follows(a, c, s0)
  }

  ghost predicate AllFaithful(j: Job) {
    forall c :: 0 <= c < |j.containers| ==> Faithful(j.args, j.containers[c])
  }

  // ---------------------------------------------------------------- one step of a worker

  lemma CadenceIs(a: Args)
    ensures Cadence(a) == if a.every == 0 then 1 else a.every
  {
  }

  lemma NamesOld(e: seq<State>, log: seq<Line>)
    requires Names(e, log)
    ensures Names(e, log + [])
  {
    assert log + [] == log;
  }

  lemma NamesMore(e: seq<State>, log: seq<Line>, l: Line)
    requires Names(e, log) && log != [] && CompletedLine !in log && Shaped(log)
    requires l.CheckpointLine? ==> |log| <= |e| && l.next == Cursor(e[|log| - 1])
    requires l == CompletedLine ==> |log| == |e| + 1
    ensures Names(e, log + [l])
  {
    hide Cursor, Shaped;
  }

  /** The first line: the loop starts. */
  lemma BootFollows(j: Job, c: nat)
    requires JobInv(j) && c < |j.containers| && WorkerEnabled(j, c, BootStep) && j.containers[c].log == []
    ensures var k := WorkerDo(j, c, BootStep); c < |k.containers| && Faithful(j.args, k.containers[c])
  {
    hide JobInv, OnTrack, Render, Load, Matches, Emissions, Enter, Fresh, Runnable, Cursor;
    var a, pc := j.args, j.containers[c].proc.pc;
    AliveIsLast(j, c);
    InvSupported(j);
    var s := if pc.resume then OnDisk(a, j.disk).value else Fresh(a);
    if pc.resume { LoadRender(a, s); OnTrackRunnable(a, s); } else { FreshOnTrack(a); OnTrackRunnable(a, Enter(s)); }
    var k := WorkerDo(j, c, BootStep).containers[c];
    assert k.log == [StartedLine] && k.proc == Alive(Looping(Enter(s), 0, 0));
    var e := Snapshots(a, Enter(s));
    assert e[0..] == e;
    assert Follows(a, k, Enter(s));
  }

  lemma IterateFollows(j: Job, c: nat, s0: State)
    requires JobInv(j) && c < |j.containers| && WorkerEnabled(j, c, Iterate)
    requires LogFits(j.containers[c]) && Follows(j.args, j.containers[c], s0)
    ensures var k := WorkerDo(j, c, Iterate); c < |k.containers| && Follows(j.args, k.containers[c], s0)
  {
    hide JobInv, OnTrack, Emissions, Advance, Tick, Done, Runnable, Cursor, Shaped, Remaining, Names;
    var a, pc := j.args, j.containers[c].proc.pc;
    var e, log := Snapshots(a, s0), j.containers[c].log;
    NamesOld(e, log);
    CadenceIs(a);
    var rest := Ahead(a, pc.mem, pc.since);
    if Done(pc.mem) {
      Runners.EmitDone(Cadence(a), pc.mem, pc.since);
      assert e[pc.epoch..] == [pc.mem];
      assert e[pc.epoch] == e[pc.epoch..][0];
    } else {
      Runners.EmitStep(Cadence(a), pc.mem, pc.since);
      var n := pc.since + Tick(pc.mem);
      if Tick(pc.mem) > 0 && n >= Cadence(a) {
        assert e[pc.epoch..] == [Advance(pc.mem)] + Ahead(a, Advance(pc.mem), 0);
        assert e[pc.epoch] == e[pc.epoch..][0] && e[pc.epoch + 1..] == e[pc.epoch..][1..];
      }
    }
  }

  lemma SaveFollows(j: Job, c: nat, s: WorkerStep, s0: State)
    requires c < |j.containers| && WorkerEnabled(j, c, s)
    requires LogFits(j.containers[c]) && Follows(j.args, j.containers[c], s0)
    requires !s.BootStep? && !s.Iterate?
    ensures var k := WorkerDo(j, c, s); c < |k.containers| && Follows(j.args, k.containers[c], s0)
  {
    hide OnTrack, Emissions, Runnable, Cursor, Shaped, Names, Render, Found;
    var a, pc := j.args, j.containers[c].proc.pc;
    var e, log := Snapshots(a, s0), j.containers[c].log;
    NamesOld(e, log);
    match s
    case Announce => NamesMore(e, log, CheckpointLine(pc.epoch, Found(pc.mem), Cursor(pc.mem)));
    case Finish => NamesMore(e, log, CompletedLine);
    case _ =>
  }

  lemma WorkerFollows(j: Job, c: nat, s: WorkerStep)
    requires JobInv(j) && LogsFit(j) && AllFaithful(j) && WorkerEnabled(j, c, s)
    ensures AllFaithful(WorkerDo(j, c, s))
  {
    hide JobInv, Follows, LogFits, WorkerDo, WorkerEnabled;
    var k := OneChanges(j, c, s);
    EnabledAt(j, c, s);
    assert Faithful(j.args, j.containers[c]);
    if s.BootStep? {
      BootFollows(j, c);
    } else if j.containers[c].log == [] {
      KilledSilent(j, c, s);
    } else {
      var s0 :| Follows(j.args, j.containers[c], s0);
      if s.Iterate? { IterateFollows(j, c, s0); } else { SaveFollows(j, c, s, s0); }
    }
  }

  lemma EnabledAt(j: Job, c: nat, s: WorkerStep)
    requires WorkerEnabled(j, c, s)
    ensures c < |j.containers|
    ensures LogFits(j.containers[c]) ==> (s.BootStep? ==> j.containers[c].log == [])
    ensures LogFits(j.containers[c]) && !s.BootStep? && !s.Killed? ==> j.containers[c].log != []
  {
  }

  lemma KilledSilent(j: Job, c: nat, s: WorkerStep)
    requires WorkerEnabled(j, c, s) && s.Killed?
    ensures var k := WorkerDo(j, c, s); c < |k.containers| && k.containers[c].log == j.containers[c].log
  {
  }

  lemma OneChanges(j: Job, c: nat, s: WorkerStep) returns (k: Job)
    requires WorkerEnabled(j, c, s)
    ensures k == WorkerDo(j, c, s) && k.args == j.args && |k.containers| == |j.containers|
    ensures forall d :: 0 <= d < |j.containers| && d != c ==> k.containers[d] == j.containers[d]
  {
    hide Boot, Advance, Tick, Done, Render;
    k := WorkerDo(j, c, s);
  }

  // ---------------------------------------------------------------- whole runs

  /** The controller only adds a container with an empty log, or notes that one was removed. */
  lemma ControllerAdds(j: Job, s: ControllerStep)
    requires ControllerEnabled(j, s)
    ensures var k := ControllerDo(j, s);
            && k.args == j.args && |j.containers| <= |k.containers|
            && (forall c :: 0 <= c < |j.containers| ==>
                  k.containers[c].log == j.containers[c].log && k.containers[c].proc == j.containers[c].proc)
            && (forall c :: |j.containers| <= c < |k.containers| ==> k.containers[c].log == [])
  {
    hide Moved, Decision, Decodes, LaunchColumns;
  }

  lemma SameFaithful(a: Args, c: Container, d: Container)
    requires Faithful(a, c) && d.log == c.log && d.proc == c.proc
    ensures Faithful(a, d)
  {
    hide OnTrack, Runnable, Names, At;
    if c.log != [] {
      var s0 :| Follows(a, c, s0);
      assert Follows(a, d, s0);
    }
  }

  lemma ControllerFollows(j: Job, s: ControllerStep)
    requires AllFaithful(j) && ControllerEnabled(j, s)
    ensures AllFaithful(ControllerDo(j, s))
  {
    hide ControllerDo, ControllerEnabled, Follows;
    ControllerAdds(j, s);
    var k := ControllerDo(j, s);
    forall c | 0 <= c < |k.containers| ensures Faithful(k.args, k.containers[c]) {
      if c < |j.containers| { SameFaithful(j.args, j.containers[c], k.containers[c]); }
    }
  }

  lemma NextFollows(w: World, e: SystemEvent, v: World, id: string)
    requires Next(w, e, v) && id in v.jobs
    requires id in w.jobs ==> JobInv(w.jobs[id]) && LogsFit(w.jobs[id]) && AllFaithful(w.jobs[id])
    ensures AllFaithful(v.jobs[id])
  {
    hide WorkerEnabled, ControllerEnabled, WorkerDo, ControllerDo, JobInv, LogsFit, Faithful;
    if e.Work? && e.id == id {
      WorkerFollows(w.jobs[id], e.container, e.step);
    } else if e.Control? && e.id == id {
      ControllerFollows(w.jobs[id], e.cstep);
    }
  }

  lemma {:induction false} RunFaithful(ws: seq<World>, es: seq<SystemEvent>, i: nat, id: string)
    requires Execution(ws, es) && i < |ws| && id in ws[i].jobs
    ensures AllFaithful(ws[i].jobs[id])
  {
    hide Next, AllFaithful, JobInv, LogsFit;
    if i == 0 {
    } else {
      StepOf(ws, es, i - 1);
      if id in ws[i - 1].jobs {
        RunFaithful(ws, es, i - 1, id);
        JobSound(ws, es, i - 1, id);
        RunLogs(ws, es, i - 1, id);
      }
      NextFollows(ws[i - 1], es[i - 1], ws[i], id);
    }
  }

  /** Every log of every run is that of the loop: started at some state s0 on the path, its checkpoint lines name
      in order the cursors of the snapshots the loop emits from s0, one every so many units as the command line
      says, and a completed line comes after all of them. */
  lemma LogFollowsLoop(ws: seq<World>, es: seq<SystemEvent>, i: nat, id: string, c: nat) returns (s0: State)
    requires Execution(ws, es) && i < |ws| && id in ws[i].jobs && c < |ws[i].jobs[id].containers|
    requires ws[i].jobs[id].containers[c].log != []
    ensures var a := ws[i].jobs[id].args; var log := ws[i].jobs[id].containers[c].log;
            && OnTrack(a, s0) && Runnable(s0)
            && var e := Emissions(if a.every == 0 then 1 else a.every, s0, 0);
               && (forall k :: 1 <= k < |log| && log[k].CheckpointLine? ==> k <= |e| && log[k].next == Cursor(e[k - 1]))
               && (CompletedLine in log ==> |log| == |e| + 2)
  {
    hide Execution, OnTrack, Runnable, Emissions, Cursor, At;
    RunFaithful(ws, es, i, id);
    var a, k := ws[i].jobs[id].args, ws[i].jobs[id].containers[c];
    assert Faithful(a, k);
    s0 :| Follows(a, k, s0);
  }
}

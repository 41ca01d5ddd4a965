/** The start-up scan: fold the container listing, classify every unfinished row, act on it. */
module Recovery {
  import opened Words
  import opened Store

  /** One container of the listing: labels job_id and controller_pid, and whether it is running. */
  datatype Summary = Summary(id: string, job: string, pid: string, running: bool)

  datatype Action = Adopt(container: string) | MarkResumable | MarkUnresumable | Resume | Leave

  /** What the scan decides for a row. */
  function Classify(state: JobState, hasCheckpoint: bool, live: Option<Summary>, pid: string): Action {
    match state
    case Running | Checkpointing =>
      if live.Some? && live.value.running && live.value.pid != pid then Adopt(live.value.id)
      else if live.None? || !live.value.running then (if hasCheckpoint then MarkResumable else MarkUnresumable)
      else Leave
    case InterruptedResumable => Resume
    case _ => Leave
  }

  // ---------------------------------------------------------------- the listing

  /** The container the scan joins with a job: its first running one, otherwise its first one. */
  function Pick(live: seq<Summary>, id: string): Option<Summary> {
    if live == [] then None
    else
      var c, p := Last(live), Pick(live[..|live| - 1], id);
      if c.job == id && (p.None? || (c.running && !p.value.running)) then Some(c) else p
  }

  /** Pick finds a container exactly when the job has one, and a running one exactly when one runs. */
  lemma {:induction false} PickMeaning(live: seq<Summary>, id: string)
    ensures Pick(live, id).Some? <==> exists i :: 0 <= i < |live| && live[i].job == id
    ensures Pick(live, id).Some? ==> Pick(live, id).value in live && Pick(live, id).value.job == id
    ensures Pick(live, id).Some? ==>
            (Pick(live, id).value.running <==> exists i :: 0 <= i < |live| && live[i].job == id && live[i].running)
  {
    if live == [] {
    } else {
      var n := |live| - 1;
      PickMeaning(live[..n], id);
      assert forall i :: 0 <= i < n ==> live[..n][i] == live[i];
      if exists i :: 0 <= i < |live| && live[i].job == id {
        var i :| 0 <= i < |live| && live[i].job == id;
        assert i < n ==> live[..n][i].job == id;
      }
      if exists i :: 0 <= i < |live| && live[i].job == id && live[i].running {
        var i :| 0 <= i < |live| && live[i].job == id && live[i].running;
        assert i < n ==> live[..n][i].job == id && live[..n][i].running;
      }
    }
  }

  /** The loop that builds liveByJobID. */
  method FoldListing(live: seq<Summary>) returns (byJob: map<string, Summary>)
    ensures forall id :: id != "" ==> (id in byJob <==> Pick(live, id).Some?)
    ensures forall id :: id in byJob ==> id != "" && Pick(live, id) == Some(byJob[id])
  {
    byJob := map[];
    for k := 0 to |live|
      invariant forall id :: id != "" ==> (id in byJob <==> Pick(live[..k], id).Some?)
      invariant forall id :: id in byJob ==> id != "" && Pick(live[..k], id) == Some(byJob[id])
    {
      var c := live[k];
      assert live[..k + 1][..k] == live[..k];
      if c.job != "" {
        if c.job !in byJob || (c.running && !byJob[c.job].running) {
          byJob := byJob[c.job := c];
        }
      }
    }
    assert live[..|live|] == live;
  }

  // ---------------------------------------------------------------- the scan

  datatype Counts = Counts(reattached: nat, markedResumable: nat, markedUnresumable: nat, resumeScheduled: nat)

  predicate Unfinished(s: JobState) {
    s == Running || s == Checkpointing || s == Pending || s == InterruptedResumable
  }

  function ActionFor(r: Row, id: string, live: seq<Summary>, pid: string): Action {
    Classify(r.state, CkptAt in r.cols, Pick(live, id), pid)
  }

  /** The state the scan leaves a row in; startOk says whether a launch attempted for it succeeds. */
  function Outcome(r: Row, a: Action, autoResume: bool, startOk: bool): JobState {
    match a
    case Adopt(_) => r.state
    case MarkResumable => if autoResume && startOk then Running else InterruptedResumable
    case MarkUnresumable => InterruptedUnresumable
    case Resume => if autoResume && startOk then Running else InterruptedResumable
    case Leave => r.state
  }

  /** The columns a row that the scan leaves in state s may have got from it: those of a launch, or the stamp of
      a finished row. */
  predicate Touched(s: JobState, c: Column) {
    match s
    case Running => c in {StartedAt, ContainerId, ControllerPid, StateVolumePath}
    case InterruptedUnresumable => c == FinishedAt
    case _ => false
  }

  /** Everything else about the row is kept, checkpoint columns included. */
  ghost predicate Kept(r: Row, r': Row) {
    r'.createdAt == r.createdAt && forall c :: !Touched(r'.state, c) ==> SameColumn(r, r', c)
  }

  lemma MarkKept(r: Row, r': Row, next: JobState, now: int)
    requires next == InterruptedResumable || next == InterruptedUnresumable
    requires MovedRow(r, r', next, map[], now)
    ensures Kept(r, r')
  {
  }

  lemma LaunchKept(r: Row, r': Row, setters: map<Column, Value>, now: int)
    requires setters.Keys <= {ContainerId, ControllerPid, StateVolumePath} && MovedRow(r, r', Running, setters, now)
    ensures Kept(r, r')
  {
  }

  lemma KeptTwice(r: Row, m: Row, r': Row)
    requires Kept(r, m) && m.state == InterruptedResumable && Kept(m, r')
    ensures Kept(r, r')
  {
    forall c | !Touched(r'.state, c) ensures SameColumn(r, r', c) {
      assert !Touched(m.state, c) && SameColumn(r, m, c) && SameColumn(m, r', c);
    }
  }

  lemma KeptSame(r: Row)
    ensures Kept(r, r)
  {
  }

  /** Start, as the scan uses it: the row is resumable; on success a container runs and the row moves. */
  method Start(st: JobStore, id: string, pid: string, ok: bool, now: int) returns (started: bool)
    requires st.Valid() && id in st.rows && st.rows[id].state == InterruptedResumable
    modifies st
    ensures st.Valid() && started == ok && st.rows.Keys == old(st.rows).Keys
    ensures forall k :: k in st.rows && (k != id || !ok) ==> st.rows[k] == old(st.rows)[k]
    ensures ok ==> st.rows[id].state == Running && Kept(old(st.rows)[id], st.rows[id])
  {
    hide Consistent, Keep, Updates, Kept;
    started := ok;
    if ok {
      var setters := map[ContainerId := Text(id), ControllerPid := Text(pid), StateVolumePath := Text(id)];
      ghost var r := st.rows[id];
      var e := st.MoveTo(id, Running, setters, now);
      LaunchKept(r, st.rows[id], setters, now);
    }
  }

  /** One row of the scan. No transition it asks for is ever rejected. */
  method ScanRow(st: JobStore, id: string, action: Action, pid: string, autoResume: bool, startOk: bool, now: int)
    returns (rejected: bool, scheduled: bool)
    requires st.Valid() && id in st.rows
    requires exists live :: action == Classify(st.rows[id].state, CkptAt in st.rows[id].cols, live, pid)
    modifies st
    ensures st.Valid() && st.rows.Keys == old(st.rows).Keys && !rejected
    ensures forall k :: k in st.rows && k != id ==> st.rows[k] == old(st.rows)[k]
    ensures st.rows[id].state == Outcome(old(st.rows)[id], action, autoResume, startOk)
    ensures (action.Adopt? || action.Leave?) ==> st.rows[id] == old(st.rows)[id]
    ensures Kept(old(st.rows)[id], st.rows[id])
    ensures scheduled <==> (action.MarkResumable? || action.Resume?) && autoResume && startOk
  {
    hide Consistent, Keep, Updates, Kept;
    rejected, scheduled := false, false;
    ghost var r := st.rows[id];
    KeptSame(r);
    match action
    case Adopt(_) =>
    case Leave =>
    case MarkUnresumable =>
      var e := st.MoveTo(id, InterruptedUnresumable, map[], now);
      rejected := e.Some?;
      MarkKept(r, st.rows[id], InterruptedUnresumable, now);
    case MarkResumable =>
      var e := st.MoveTo(id, InterruptedResumable, map[], now);
      rejected := e.Some?;
      ghost var m := st.rows[id];
      MarkKept(r, m, InterruptedResumable, now);
      if autoResume {
        scheduled := Start(st, id, pid, startOk, now);
        if startOk { KeptTwice(r, m, st.rows[id]); }
      }
    case Resume =>
      if autoResume { scheduled := Start(st, id, pid, startOk, now); }
  }

  /** The rows of done for which the scan takes action a. */
  ghost function Acting(rows: map<string, Row>, done: set<string>, live: seq<Summary>, pid: string,
    a: Action): set<string> {
    set id | id in done && id in rows && ActionFor(rows[id], id, live, pid) == a
  }

  /** The rows of done for which a launch is attempted and succeeds. */
  ghost function Launched(rows: map<string, Row>, done: set<string>, live: seq<Summary>, pid: string,
    ok: set<string>): set<string> {
    set id | id in done && id in rows && id in ok
             && (ActionFor(rows[id], id, live, pid) == MarkResumable || ActionFor(rows[id], id, live, pid) == Resume)
  }

  /** The rows after the ones in done have been processed. */
  ghost predicate RowsScanned(before: map<string, Row>, after: map<string, Row>, done: set<string>,
    live: seq<Summary>, pid: string, autoResume: bool, ok: set<string>) {
    && after.Keys == before.Keys && done <= before.Keys
    && (forall id :: id in before && id !in done ==> after[id] == before[id])
    && (forall id :: id in done ==>
          && after[id].state == Outcome(before[id], ActionFor(before[id], id, live, pid), autoResume, id in ok)
          && Kept(before[id], after[id]))
  }

  /** Exactly the rows with a live foreign container are adopted, each with that container. */
  ghost predicate AdoptionsRight(before: map<string, Row>, done: set<string>, live: seq<Summary>, pid: string,
    adopted: map<string, string>) {
    && done <= before.Keys
    && (forall id :: id in adopted <==> id in done && ActionFor(before[id], id, live, pid).Adopt?)
    && (forall id :: id in adopted ==> ActionFor(before[id], id, live, pid) == Adopt(adopted[id]))
  }

  ghost predicate CountsRight(before: map<string, Row>, done: set<string>, live: seq<Summary>, pid: string,
    autoResume: bool, ok: set<string>, adopted: map<string, string>, c: Counts) {
    && c.reattached == |adopted|
    && c.markedResumable == |Acting(before, done, live, pid, MarkResumable)|
    && c.markedUnresumable == |Acting(before, done, live, pid, MarkUnresumable)|
    && c.resumeScheduled == if autoResume then |Launched(before, done, live, pid, ok)| else 0
  }

  /** The whole account of a scan that has processed the rows in done. */
  ghost predicate Scanned(before: map<string, Row>, after: map<string, Row>, done: set<string>, live: seq<Summary>,
    pid: string, autoResume: bool, ok: set<string>, adopted: map<string, string>, c: Counts) {
    && RowsScanned(before, after, done, live, pid, autoResume, ok)
    && AdoptionsRight(before, done, live, pid, adopted)
    && CountsRight(before, done, live, pid, autoResume, ok, adopted, c)
  }

  lemma ActingGrows(rows: map<string, Row>, done: set<string>, live: seq<Summary>, pid: string, id: string, a: Action)
    requires id in rows && id !in done
    ensures |Acting(rows, done + {id}, live, pid, a)|
         == |Acting(rows, done, live, pid, a)| + if ActionFor(rows[id], id, live, pid) == a then 1 else 0
  {
    var s, t := Acting(rows, done, live, pid, a), Acting(rows, done + {id}, live, pid, a);
    if ActionFor(rows[id], id, live, pid) == a { assert t == s + {id}; } else { assert t == s; }
  }

  lemma LaunchedGrows(rows: map<string, Row>, done: set<string>, live: seq<Summary>, pid: string, ok: set<string>,
    id: string)
    requires id in rows && id !in done
    ensures var a := ActionFor(rows[id], id, live, pid);
            |Launched(rows, done + {id}, live, pid, ok)|
            == |Launched(rows, done, live, pid, ok)| + if id in ok && (a == MarkResumable || a == Resume) then 1 else 0
  {
    var s, t := Launched(rows, done, live, pid, ok), Launched(rows, done + {id}, live, pid, ok);
    var a := ActionFor(rows[id], id, live, pid);
    if id in ok && (a == MarkResumable || a == Resume) { assert t == s + {id}; } else { assert t == s; }
  }

  lemma RowsGrow(before: map<string, Row>, mid: map<string, Row>, after: map<string, Row>, done: set<string>,
    live: seq<Summary>, pid: string, autoResume: bool, ok: set<string>, id: string)
    requires RowsScanned(before, mid, done, live, pid, autoResume, ok)
    requires id in before && id !in done
    requires after.Keys == mid.Keys && (forall k :: k in after && k != id ==> after[k] == mid[k])
    requires after[id].state == Outcome(before[id], ActionFor(before[id], id, live, pid), autoResume, id in ok)
    requires Kept(before[id], after[id])
    ensures RowsScanned(before, after, done + {id}, live, pid, autoResume, ok)
  {
    hide ActionFor, Outcome, Kept;
  }

  lemma AdoptionsGrow(before: map<string, Row>, done: set<string>, live: seq<Summary>, pid: string,
    adopted: map<string, string>, id: string, a: Action)
    requires AdoptionsRight(before, done, live, pid, adopted)
    requires id in before && id !in done && a == ActionFor(before[id], id, live, pid)
    ensures id !in adopted
    ensures AdoptionsRight(before, done + {id}, live, pid, if a.Adopt? then adopted[id := a.container] else adopted)
  {
    hide ActionFor;
  }

  /** The effect of one processed row on the whole account. */
  lemma ScannedGrows(before: map<string, Row>, mid: map<string, Row>, after: map<string, Row>, done: set<string>,
    live: seq<Summary>, pid: string, autoResume: bool, ok: set<string>, adopted: map<string, string>, c: Counts,
    id: string, a: Action)
    requires Scanned(before, mid, done, live, pid, autoResume, ok, adopted, c)
    requires id in before && id !in done && a == ActionFor(before[id], id, live, pid)
    requires after.Keys == mid.Keys && (forall k :: k in after && k != id ==> after[k] == mid[k])
    requires after[id].state == Outcome(before[id], a, autoResume, id in ok) && Kept(before[id], after[id])
    ensures var adopted' := if a.Adopt? then adopted[id := a.container] else adopted;
            var c' := Tally(c, a, (a == MarkResumable || a == Resume) && autoResume && id in ok);
            Scanned(before, after, done + {id}, live, pid, autoResume, ok, adopted', c')
  {
    hide ActionFor, Outcome, Acting, Launched, RowsScanned, AdoptionsRight, Kept;
    RowsGrow(before, mid, after, done, live, pid, autoResume, ok, id);
    AdoptionsGrow(before, done, live, pid, adopted, id, a);
    ActingGrows(before, done, live, pid, id, MarkResumable);
    ActingGrows(before, done, live, pid, id, MarkUnresumable);
    LaunchedGrows(before, done, live, pid, ok, id);
  }

  function Tally(c: Counts, a: Action, scheduled: bool): Counts {
    Counts(c.reattached + (if a.Adopt? then 1 else 0), c.markedResumable + (if a.MarkResumable? then 1 else 0),
           c.markedUnresumable + (if a.MarkUnresumable? then 1 else 0),
           c.resumeScheduled + (if scheduled then 1 else 0))
  }

  /** Reconciler.Run. The listing is None when the container daemon could not be asked, which the code
      treats as an empty listing. Every unfinished row is classified exactly once, all other rows are
      untouched, no marking transition is rejected, and the counters count the actions. */
  method Run(st: JobStore, listing: Option<seq<Summary>>, pid: string, autoResume: bool, startOk: set<string>, now: int)
    returns (c: Counts, adopted: map<string, string>, rejected: bool)
    requires st.Valid() && "" !in st.rows
    modifies st
    ensures st.Valid() && !rejected
    ensures Scanned(old(st.rows), st.rows, set id | id in old(st.rows) && Unfinished(old(st.rows)[id].state),
                    if listing.Some? then listing.value else [], pid, autoResume, startOk, adopted, c)
  {
    hide Scanned, ActionFor, Outcome, Consistent, Kept;
    var live := if listing.Some? then listing.value else [];
    var byJob := FoldListing(live);
    ghost var before := st.rows;
    var todo := set id | id in st.rows && Unfinished(st.rows[id].state);
    ghost var all := todo;
    c, adopted, rejected := Counts(0, 0, 0, 0), map[], false;
    ScannedNothing(before, live, pid, autoResume, startOk);
    assert all - todo == {};
    while todo != {}
      invariant st.Valid() && !rejected && todo <= all <= before.Keys
      invariant Scanned(before, st.rows, all - todo, live, pid, autoResume, startOk, adopted, c)
      decreases |todo|
    {
      var id :| id in todo;
      ScannedUntouched(before, st.rows, all - todo, live, pid, autoResume, startOk, adopted, c, id);
      var r := st.rows[id];
      var summary := if id in byJob then Some(byJob[id]) else None;
      assert summary == Pick(live, id);
      var action := Classify(r.state, CkptAt in r.cols, summary, pid);
      ActionIs(r, id, live, pid);
      ghost var mid := st.rows;
      var rej, scheduled := ScanRow(st, id, action, pid, autoResume, id in startOk, now);
      ScannedGrows(before, mid, st.rows, all - todo, live, pid, autoResume, startOk, adopted, c, id, action);
      rejected := rejected || rej;
      if action.Adopt? { adopted := adopted[id := action.container]; }
      c := Tally(c, action, scheduled);
      assert all - (todo - {id}) == all - todo + {id};
      todo := todo - {id};
    }
    assert all - todo == all;
  }

  lemma ActionIs(r: Row, id: string, live: seq<Summary>, pid: string)
    ensures ActionFor(r, id, live, pid) == Classify(r.state, CkptAt in r.cols, Pick(live, id), pid)
  {
  }

  lemma ScannedNothing(rows: map<string, Row>, live: seq<Summary>, pid: string, autoResume: bool, ok: set<string>)
    ensures Scanned(rows, rows, {}, live, pid, autoResume, ok, map[], Counts(0, 0, 0, 0))
  {
    assert Acting(rows, {}, live, pid, MarkResumable) == {} && Acting(rows, {}, live, pid, MarkUnresumable) == {};
    assert Launched(rows, {}, live, pid, ok) == {};
  }

  lemma ScannedUntouched(before: map<string, Row>, after: map<string, Row>, done: set<string>, live: seq<Summary>,
    pid: string, autoResume: bool, ok: set<string>, adopted: map<string, string>, c: Counts, id: string)
    requires Scanned(before, after, done, live, pid, autoResume, ok, adopted, c) && id in before && id !in done
    ensures id in after && after[id] == before[id] && after.Keys == before.Keys
  {
  }

  /** Completeness of a scan whose listing succeeded and whose containers carry foreign PIDs: a formerly
      running or checkpointing row is adopted with a running container, or has no running container and is
      resumable or resumed when it had a checkpoint, and unresumable when it had none. */
  lemma ScanComplete(r: Row, id: string, live: seq<Summary>, pid: string, autoResume: bool, ok: bool)
    requires r.state == Running || r.state == Checkpointing
    requires forall i :: 0 <= i < |live| ==> live[i].pid != pid
    ensures var a := ActionFor(r, id, live, pid); var s := Outcome(r, a, autoResume, ok);
            var runs := exists i :: 0 <= i < |live| && live[i].job == id && live[i].running;
            && (runs ==> a.Adopt? && s == r.state
                         && exists i ::
                              && 0 <= i < |live| && live[i].id == a.container
                              && live[i].job == id && live[i].running)
            && (!runs && CkptAt in r.cols ==> s == InterruptedResumable || s == Running)
            && (!runs && CkptAt !in r.cols ==> s == InterruptedUnresumable)
  {
    PickMeaning(live, id);
    if Pick(live, id).Some? {
      var i :| 0 <= i < |live| && live[i] == Pick(live, id).value;
    }
  }
}

/** The job store: one row per job, an append-only event log, and the state machine between them. Each
    operation is one transaction. */
module Store {
  import opened Words

  datatype JobState = Pending | Running | Checkpointing | Completed | Failed | Cancelled
    | InterruptedResumable | InterruptedUnresumable

  predicate IsTerminal(s: JobState) {
    s == Completed || s == Failed || s == Cancelled || s == InterruptedUnresumable
  }

  function ValidTargets(from: JobState): set<JobState> {
    match from
    case Pending => {Running, Cancelled, Failed, InterruptedUnresumable}
    case Running => {Running, Checkpointing, Completed, Failed, Cancelled, InterruptedResumable, InterruptedUnresumable}
    case Checkpointing => {Running, Checkpointing, Completed, Failed, Cancelled, InterruptedResumable,
      InterruptedUnresumable}
    case InterruptedResumable => {Running, InterruptedUnresumable, Cancelled}
    case Completed => {Completed}
    case Failed => {Failed}
    case Cancelled => {Cancelled}
    case InterruptedUnresumable => {InterruptedUnresumable}
  }

  predicate IsValidTransition(from: JobState, to: JobState) {
    from == to || to in ValidTargets(from)
  }

  /** The shape of the state machine: nothing leaves a terminal state or returns to pending; an active job
      may go anywhere else; an interrupted one may only run again, be cancelled or be given up; a job that
      never ran may in addition only fail. */
  lemma TransitionShape(from: JobState, to: JobState)
    ensures IsValidTransition(from, to) <==>
            from == to ||
            (!IsTerminal(from) && to != Pending &&
             (from == Running || from == Checkpointing || to == Running || to == Cancelled
               || to == InterruptedUnresumable
              || (from == Pending && to == Failed)))
  {
  }

  // ---------------------------------------------------------------- rows and events

  datatype Column = StartedAt | FinishedAt | ExitCode | CkptAt | CkptPath | CkptEpoch | CkptFound
    | ContainerId | ControllerPid | StateVolumePath | AssignedControllerId

  datatype Value = Int(i: int) | Text(t: string)

  /** A row; a column that is absent from cols is NULL. */
  datatype Row = Row(state: JobState, createdAt: int, cols: map<Column, Value>)

  datatype Payload =
    | Created(state: JobState)
    | Transitioned(from: JobState, to: JobState, updates: map<Column, Value>)
    | Checkpointed(epoch: int, found: int, path: string)

  /** Its position in the log is the event's id. */
  datatype Event = Event(job: string, payload: Payload, recordedAt: int)

  datatype Db = Db(rows: map<string, Row>, events: seq<Event>)

  datatype Error = NotFound | InvalidTransition | Duplicate

  /** The columns the callers' setters touch. */
  const SETTABLE: set<Column> := {ExitCode, ContainerId, ControllerPid, StateVolumePath, AssignedControllerId}

  /** The columns redactedUpdates lets through to the audit event. */
  const AUDITED: set<Column> := {ExitCode, ContainerId, CkptEpoch, CkptFound, StartedAt, FinishedAt,
    AssignedControllerId}

  /** Everything the event log keeps about a row besides its state. */
  const LOGGED: set<Column> := AUDITED + {CkptPath}

  function Keep(u: map<Column, Value>, cs: set<Column>): map<Column, Value> {
    map c | c in u && c in cs :: u[c]
  }

  /** The filtering loop over the updates, in any order of the map. */
  method RedactedUpdates(u: map<Column, Value>) returns (out: map<Column, Value>)
    ensures out == Keep(u, AUDITED)
    ensures forall c :: c in out <==> c in u && c !in {CkptAt, CkptPath, ControllerPid, StateVolumePath}
    ensures forall c :: c in out ==> out[c] == u[c]
  {
    out := map[];
    var rest := u.Keys;
    while rest != {}
      invariant rest <= u.Keys && out == Keep(u - rest, AUDITED)
      decreases |rest|
    {
      var k :| k in rest;
      if k in AUDITED { out := out[k := u[k]]; }
      rest := rest - {k};
    }
    assert u - rest == u;
    AuditedColumns();
  }

  /** Everything is audited but two checkpoint columns and two that only matter to the running process. */
  lemma AuditedColumns()
    ensures forall c :: c in AUDITED <==> c !in {CkptAt, CkptPath, ControllerPid, StateVolumePath}
  {
    forall c ensures c in AUDITED <==> c !in {CkptAt, CkptPath, ControllerPid, StateVolumePath} {
      match c
      case StartedAt | FinishedAt | ExitCode | CkptAt | CkptPath | CkptEpoch | CkptFound | ContainerId | ControllerPid
        | StateVolumePath | AssignedControllerId =>
    }
  }

  // ---------------------------------------------------------------- the operations on values

  /** All column updates of a transition: the caller's, plus the default timestamp of the target. */
  function Updates(next: JobState, setters: map<Column, Value>, now: int): map<Column, Value> {
    if next == Running && StartedAt !in setters then setters[StartedAt := Int(now)]
    else if IsTerminal(next) && FinishedAt !in setters then setters[FinishedAt := Int(now)]
    else setters
  }

  function TransitionRow(r: Row, next: JobState, setters: map<Column, Value>, now: int): Result<Row, Error> {
    if !IsValidTransition(r.state, next) then Err(InvalidTransition)
    else Ok(r.(state := next, cols := r.cols + Updates(next, setters, now)))
  }

  /** The transition to next stamps column c unless the caller sets it. */
  predicate Stamps(next: JobState, c: Column) {
    (c == StartedAt && next == Running) || (c == FinishedAt && IsTerminal(next))
  }

  /** r' is r moved to next: the caller's columns are set, started_at or finished_at is stamped unless the
      caller sets it, everything else is as before. */
  ghost predicate MovedRow(r: Row, r': Row, next: JobState, setters: map<Column, Value>, now: int) {
    && r'.state == next && r'.createdAt == r.createdAt
    && (forall c :: c in setters ==> c in r'.cols && r'.cols[c] == setters[c])
    && (next == Running && StartedAt !in setters ==> StartedAt in r'.cols && r'.cols[StartedAt] == Int(now))
    && (IsTerminal(next) && FinishedAt !in setters ==> FinishedAt in r'.cols && r'.cols[FinishedAt] == Int(now))
    && (forall c :: c !in setters && !Stamps(next, c) ==> SameColumn(r, r', c))
  }

  predicate SameColumn(r: Row, r': Row, c: Column) {
    (c in r'.cols <==> c in r.cols) && (c in r.cols ==> r'.cols[c] == r.cols[c])
  }

  /** What a transition writes. */
  lemma TransitionColumns(r: Row, next: JobState, setters: map<Column, Value>, now: int)
    ensures match TransitionRow(r, next, setters, now)
      case Err(_) => !IsValidTransition(r.state, next)
      case Ok(r') => IsValidTransition(r.state, next) && MovedRow(r, r', next, setters, now)
  {
    hide IsValidTransition;
  }

  function CheckpointRow(r: Row, epoch: int, found: int, path: string, now: int): Row {
    r.(cols := r.cols + map[CkptAt := Int(now), CkptPath := Text(path), CkptEpoch := Int(epoch),
      CkptFound := Int(found)])
  }

  /** r' is r with a checkpoint recorded: four columns are set, nothing else changes. */
  ghost predicate CheckpointedRow(r: Row, r': Row, epoch: int, found: int, path: string, now: int) {
    && r'.state == r.state && r'.createdAt == r.createdAt
    && {CkptAt, CkptPath, CkptEpoch, CkptFound} <= r'.cols.Keys
    && r'.cols[CkptAt] == Int(now) && r'.cols[CkptPath] == Text(path)
    && r'.cols[CkptEpoch] == Int(epoch) && r'.cols[CkptFound] == Int(found)
    && (forall c :: c !in {CkptAt, CkptPath, CkptEpoch, CkptFound} ==> SameColumn(r, r', c))
  }

  lemma CheckpointColumns(r: Row, epoch: int, found: int, path: string, now: int)
    ensures CheckpointedRow(r, CheckpointRow(r, epoch, found, path, now), epoch, found, path, now)
  {
  }

  datatype Op =
    | Create(id: string, requested: Option<JobState>, createdAt: int, now: int)
    | Transition(id: string, next: JobState, setters: map<Column, Value>, now: int)
    | RecordCheckpoint(id: string, epoch: int, found: int, path: string, now: int)

  function Apply(db: Db, op: Op): Result<Db, Error> {
    match op
    case Create(id, requested, createdAt, now) =>
      if id in db.rows then Err(Duplicate)
      else
        var s := if requested.Some? then requested.value else Pending;
        Ok(Db(db.rows[id := Row(s, createdAt, map[])], db.events + [Event(id, Created(s), now)]))
    case Transition(id, next, setters, now) =>
      if id !in db.rows then Err(NotFound)
      else
        var r := db.rows[id];
        (match TransitionRow(r, next, setters, now)
         case Err(e) => Err(e)
         case Ok(r') => Ok(Db(db.rows[id := r'], db.events +
           [Event(id, Transitioned(r.state, next, Keep(Updates(next, setters, now), AUDITED)), now)])))
    case RecordCheckpoint(id, epoch, found, path, now) =>
      if id !in db.rows then Err(NotFound)
      else Ok(Db(db.rows[id := CheckpointRow(db.rows[id], epoch, found, path, now)],
                 db.events + [Event(id, Checkpointed(epoch, found, path), now)]))
  }

  /** A failed operation rolls back. */
  function After(db: Db, op: Op): Db {
    match Apply(db, op)
    case Ok(d) => d
    case Err(_) => db
  }

  // ---------------------------------------------------------------- replaying the log

  /** What a replay reconstructs. */
  datatype View = View(state: JobState, cols: map<Column, Value>)

  /** None as soon as the log is not a chain of valid transitions that starts with the creation. */
  function Fold(v: Option<View>, p: Payload): Option<View> {
    match p
    case Created(s) => if v.None? then Some(View(s, map[])) else None
    case Transitioned(from, to, u) =>
      if v.Some? && v.value.state == from && IsValidTransition(from, to) then Some(View(to, v.value.cols + u)) else None
    case Checkpointed(epoch, found, path) =>
      if v.None? then None
      else
        var u := map[CkptPath := Text(path), CkptEpoch := Int(epoch), CkptFound := Int(found)];
        Some(v.value.(cols := v.value.cols + u))
  }

  /** Folds one job's events. */
  function Replay(events: seq<Event>, id: string): Option<View> {
    if events == [] then None
    else
      var e, v := Last(events), Replay(events[..|events| - 1], id);
      if e.job != id then v else Fold(v, e.payload)
  }

  /** The replay v gives the state of the row and its columns cs, absent ones included. */
  predicate Agrees(v: Option<View>, r: Row, cs: set<Column>) {
    v.Some? && v.value.state == r.state && Keep(v.value.cols, cs) == Keep(r.cols, cs)
  }

  /** A job has no events before it has a row, and then they determine its state and audited columns. */
  ghost predicate JobConsistent(db: Db, id: string) {
    if id in db.rows then Agrees(Replay(db.events, id), db.rows[id], AUDITED) else Replay(db.events, id) == None
  }

  ghost predicate Consistent(db: Db) {
    forall id :: JobConsistent(db, id)
  }

  lemma ReplayAppend(events: seq<Event>, e: Event, id: string)
    ensures Replay(events + [e], id) == if e.job != id then Replay(events, id) else Fold(Replay(events, id), e.payload)
  {
    assert (events + [e])[..|events|] == events && Last(events + [e]) == e;
  }

  // ---------------------------------------------------------------- what every operation keeps

  lemma KeepSum(a: map<Column, Value>, b: map<Column, Value>, cs: set<Column>)
    ensures Keep(a + b, cs) == Keep(a, cs) + Keep(b, cs)
  {
  }

  lemma KeepKeep(u: map<Column, Value>, cs: set<Column>, ds: set<Column>)
    requires forall c :: c in u && c in cs ==> c in ds
    ensures Keep(Keep(u, ds), cs) == Keep(u, cs)
  {
  }

  /** Columns cs are followed by the log through a transition that leaves alone those that are not audited. */
  lemma TransitionAgrees(v: Option<View>, r: Row, next: JobState, u: map<Column, Value>, cs: set<Column>)
    requires Agrees(v, r, cs) && IsValidTransition(r.state, next)
    requires forall c :: c in u && c in cs ==> c in AUDITED
    ensures Agrees(Fold(v, Transitioned(r.state, next, Keep(u, AUDITED))), r.(state := next, cols := r.cols + u), cs)
  {
    hide Keep, IsValidTransition;
    KeepSum(v.value.cols, Keep(u, AUDITED), cs);
    KeepSum(r.cols, u, cs);
    KeepKeep(u, cs, AUDITED);
  }

  lemma CheckpointAgrees(v: Option<View>, r: Row, epoch: int, found: int, path: string, now: int, cs: set<Column>)
    requires Agrees(v, r, cs) && cs <= LOGGED
    ensures Agrees(Fold(v, Checkpointed(epoch, found, path)), CheckpointRow(r, epoch, found, path, now), cs)
  {
    hide Keep;
    var u := map[CkptPath := Text(path), CkptEpoch := Int(epoch), CkptFound := Int(found)];
    var w := map[CkptAt := Int(now), CkptPath := Text(path), CkptEpoch := Int(epoch), CkptFound := Int(found)];
    assert Keep(u, cs) == Keep(w, cs) by { KeepWithoutTime(u, w, now, cs); }
    KeepSum(v.value.cols, u, cs);
    KeepSum(r.cols, w, cs);
  }

  lemma KeepWithoutTime(u: map<Column, Value>, w: map<Column, Value>, now: int, cs: set<Column>)
    requires CkptAt !in cs && CkptAt !in u && w == u[CkptAt := Int(now)]
    ensures Keep(u, cs) == Keep(w, cs)
  {
  }

  /** Every operation, with any setters, keeps rows and log consistent. */
  lemma OpKeeps(db: Db, op: Op)
    requires Consistent(db)
    ensures Consistent(After(db, op))
  {
    hide Keep, Replay, Fold, Agrees, IsValidTransition, Updates, CheckpointRow;
    forall id ensures JobConsistent(After(db, op), id) {
      assert JobConsistent(db, id);
      if Apply(db, op).Ok? { StepAgrees(db, op, id, AUDITED); }
    }
  }

  /** The event of a successful operation takes the replay from the old row to the new one. */
  lemma StepAgrees(db: Db, op: Op, id: string, cs: set<Column>)
    requires Apply(db, op).Ok? && cs <= LOGGED
    requires if id in db.rows then Agrees(Replay(db.events, id), db.rows[id], cs) else Replay(db.events, id) == None
    requires op.Transition? && op.id == id && CkptPath in op.setters ==> CkptPath !in cs
    ensures var d := After(db, op);
            if id in d.rows then Agrees(Replay(d.events, id), d.rows[id], cs) else Replay(d.events, id) == None
  {
    hide Keep, Replay, IsValidTransition, CheckpointRow, Agrees, Updates;
    var d := After(db, op);
    ReplayAppend(db.events, Last(d.events), id);
    if op.id == id {
      var v := Replay(db.events, id);
      match op
      case Create(_, _, _, _) => NothingKept(cs, d.rows[id]);
      case Transition(_, next, setters, now) =>
        UpdatesAudited(next, setters, now, cs);
        TransitionAgrees(v, db.rows[id], next, Updates(next, setters, now), cs);
      case RecordCheckpoint(_, epoch, found, path, now) =>
        CheckpointAgrees(v, db.rows[id], epoch, found, path, now, cs);
    }
  }

  lemma NothingKept(cs: set<Column>, r: Row)
    requires r.cols == map[]
    ensures Agrees(Some(View(r.state, map[])), r, cs)
  {
  }

  lemma UpdatesAudited(next: JobState, setters: map<Column, Value>, now: int, cs: set<Column>)
    requires cs <= LOGGED && (CkptPath in setters ==> CkptPath !in cs)
    ensures forall c :: c in Updates(next, setters, now) && c in cs ==> c in AUDITED
  {
  }

  // ---------------------------------------------------------------- what careful setters keep

  /** Setters that leave the checkpoint path alone and set finished_at only on the way to a terminal state,
      as those of all callers do. */
  predicate Tidy(op: Op) {
    op.Transition? ==> CkptPath !in op.setters && (FinishedAt in op.setters ==> IsTerminal(op.next))
  }

  /** The log also determines the checkpoint path, and finished_at marks the terminal states. */
  ghost predicate Tracked(db: Db, id: string, live: bool) {
    if id in db.rows then
      && Agrees(Replay(db.events, id), db.rows[id], LOGGED)
      && (live ==> (FinishedAt in db.rows[id].cols <==> IsTerminal(db.rows[id].state)))
    else Replay(db.events, id) == None
  }

  /** If op creates the job, it does so in a live state. */
  predicate CreatesLive(op: Op) {
    op.Create? && op.requested.Some? ==> !IsTerminal(op.requested.value)
  }

  lemma TidyKeeps(db: Db, op: Op, id: string, live: bool)
    requires Tracked(db, id, live) && (op.id == id ==> Tidy(op)) && (live && op.id == id ==> CreatesLive(op))
    ensures Tracked(After(db, op), id, live)
  {
    hide Keep, Replay, Agrees, Updates;
    if Apply(db, op).Ok? {
      StepAgrees(db, op, id, LOGGED);
      if live && op.id == id && op.Transition? { FinishedMarks(db.rows[id], op); }
    }
  }

  lemma FinishedMarks(r: Row, op: Op)
    requires op.Transition? && Tidy(op) && IsValidTransition(r.state, op.next)
    requires FinishedAt in r.cols <==> IsTerminal(r.state)
    ensures FinishedAt in r.cols + Updates(op.next, op.setters, op.now) <==> IsTerminal(op.next)
  {
  }

  /** Exactly the setters that change the checkpoint path behind the log's back make them differ. */
  lemma PathFollowedIff(db: Db, op: Op)
    requires op.Transition? && Apply(db, op).Ok? && Agrees(Replay(db.events, op.id), db.rows[op.id], LOGGED)
    ensures var d := After(db, op); var cols := db.rows[op.id].cols;
            Agrees(Replay(d.events, op.id), d.rows[op.id], LOGGED) <==>
            (CkptPath in op.setters ==> CkptPath in cols && cols[CkptPath] == op.setters[CkptPath])
  {
    hide Replay, IsValidTransition;
    var d := After(db, op);
    var v, r, u := Replay(db.events, op.id), db.rows[op.id], Updates(op.next, op.setters, op.now);
    ReplayAppend(db.events, Last(d.events), op.id);
    var w := v.value.cols + Keep(u, AUDITED);
    assert Replay(d.events, op.id) == Some(View(op.next, w));
    assert CkptPath in op.setters <==> CkptPath in u;
    PathOfReplay(v.value.cols, r.cols, u);
  }

  lemma PathOfReplay(seen: map<Column, Value>, cols: map<Column, Value>, u: map<Column, Value>)
    requires Keep(seen, LOGGED) == Keep(cols, LOGGED)
    ensures Keep(seen + Keep(u, AUDITED), LOGGED) == Keep(cols + u, LOGGED) <==>
            (CkptPath in u ==> CkptPath in cols && cols[CkptPath] == u[CkptPath])
  {
    assert CkptPath in Keep(cols, LOGGED) <==> CkptPath in cols;
    var k, a := Keep(cols, LOGGED), Keep(u, AUDITED);
    KeepLogged(u);
    assert CkptPath !in a;
    assert CkptPath in k ==> k[CkptPath] == cols[CkptPath];
    hide Keep;
    KeepSum(seen, a, LOGGED);
    KeepSum(cols, u, LOGGED);
    KeepAgain(u);
    if CkptPath in u { SameWithPath(k, a, u[CkptPath]); }
  }

  lemma KeepLogged(u: map<Column, Value>)
    ensures Keep(u, LOGGED) == if CkptPath in u then Keep(u, AUDITED)[CkptPath := u[CkptPath]] else Keep(u, AUDITED)
  {
  }

  lemma KeepAgain(u: map<Column, Value>)
    ensures Keep(Keep(u, AUDITED), LOGGED) == Keep(u, AUDITED)
  {
  }

  lemma SameWithPath(k: map<Column, Value>, a: map<Column, Value>, p: Value)
    requires CkptPath !in a
    ensures k + a == k + a[CkptPath := p] <==> CkptPath in k && k[CkptPath] == p
  {
    var b := a[CkptPath := p];
    assert (k + b)[CkptPath] == p;
    if CkptPath in k && k[CkptPath] == p {
      assert k + a == k + b;
    } else {
      assert CkptPath !in k + a || (k + a)[CkptPath] != p;
    }
  }

  // ---------------------------------------------------------------- whole histories

  const EMPTY: Db := Db(map[], [])

  function RunAll(db: Db, ops: seq<Op>): Db {
    if ops == [] then db else After(RunAll(db, ops[..|ops| - 1]), Last(ops))
  }

  lemma {:induction false} HistoryConsistent(ops: seq<Op>)
    ensures Consistent(RunAll(EMPTY, ops))
  {
    hide Consistent, After;
    if ops == [] {
      EmptyConsistent();
    } else {
      HistoryConsistent(ops[..|ops| - 1]);
      OpKeeps(RunAll(EMPTY, ops[..|ops| - 1]), Last(ops));
    }
  }

  lemma EmptyConsistent()
    ensures Consistent(EMPTY)
  {
  }

  lemma {:induction false} HistoryTracked(ops: seq<Op>, id: string, live: bool)
    requires forall i :: 0 <= i < |ops| && ops[i].id == id ==> Tidy(ops[i]) && (live ==> CreatesLive(ops[i]))
    ensures Tracked(RunAll(EMPTY, ops), id, live)
  {
    hide Tracked, After, Tidy, CreatesLive;
    if ops == [] {
      NothingTracked(id, live);
    } else {
      HistoryTracked(ops[..|ops| - 1], id, live);
      TidyKeeps(RunAll(EMPTY, ops[..|ops| - 1]), Last(ops), id, live);
    }
  }

  lemma NothingTracked(id: string, live: bool)
    ensures Tracked(EMPTY, id, live)
  {
  }

  /** Event-log replay: after any history of operations with any setters, failed ones included, folding the
      events of a job in id order reproduces its state and every audited column, and the transition events
      form one chain of valid transitions. If the setters used on this job are tidy, the replay also gives
      the checkpoint path, and for a job created in a live state finished_at is set exactly in terminal
      states. */
  lemma ReplayReproducesRow(ops: seq<Op>, id: string)
    requires id in RunAll(EMPTY, ops).rows
    ensures var db := RunAll(EMPTY, ops); var r := db.rows[id];
            && Agrees(Replay(db.events, id), r, AUDITED)
            && ((forall i :: 0 <= i < |ops| && ops[i].id == id ==> Tidy(ops[i])) ==>
                  && Agrees(Replay(db.events, id), r, LOGGED)
                  && ((forall i :: 0 <= i < |ops| && ops[i].id == id ==> CreatesLive(ops[i])) ==>
                        (FinishedAt in r.cols <==> IsTerminal(r.state))))
  {
    hide RunAll, Replay, Agrees, Tidy, CreatesLive;
    HistoryConsistent(ops);
    assert JobConsistent(RunAll(EMPTY, ops), id);
    if forall i :: 0 <= i < |ops| && ops[i].id == id ==> Tidy(ops[i]) {
      HistoryTracked(ops, id, false);
      if forall i :: 0 <= i < |ops| && ops[i].id == id ==> CreatesLive(ops[i]) { HistoryTracked(ops, id, true); }
    }
  }

  /** Terminal states absorb: no operation, hence no history, changes the state of a finished job, and
      the log only grows. */
  lemma {:induction false} TerminalAbsorbs(db: Db, ops: seq<Op>, id: string)
    requires id in db.rows
    ensures id in RunAll(db, ops).rows
    ensures IsTerminal(db.rows[id].state) ==> RunAll(db, ops).rows[id].state == db.rows[id].state
    ensures db.events <= RunAll(db, ops).events
  {
    if ops == [] {
    } else {
      TerminalAbsorbs(db, ops[..|ops| - 1], id);
    }
  }

  // ---------------------------------------------------------------- the store object

  class JobStore {
    var rows: map<string, Row>
    var events: seq<Event>

    function Contents(): Db
      reads this
    {
      Db(rows, events)
    }

    ghost predicate Valid()
      reads this
    {
      Consistent(Contents())
    }

    constructor ()
      ensures Valid() && Contents() == EMPTY
    {
      rows, events := map[], [];
      new;
      EmptyConsistent();
    }

    method CreateJob(id: string, requested: Option<JobState>, createdAt: int, now: int) returns (err: Option<Error>)
      requires Valid()
      modifies this
      ensures Valid() && Contents() == After(old(Contents()), Create(id, requested, createdAt, now))
      ensures err.Some? <==> id in old(rows)
      ensures err.None? ==>
                && id in rows && rows[id].state == (if requested.Some? then requested.value else Pending)
                && rows[id].createdAt == createdAt && rows[id].cols == map[]
                && events == old(events) + [Event(id, Created(rows[id].state), now)]
      ensures forall k :: k != id ==> (k in rows <==> k in old(rows)) && (k in rows ==> rows[k] == old(rows)[k])
    {
      hide Consistent;
      OpKeeps(Contents(), Create(id, requested, createdAt, now));
      if id in rows { return Some(Duplicate); }
      var s := if requested.Some? then requested.value else Pending;
      rows := rows[id := Row(s, createdAt, map[])];
      events := events + [Event(id, Created(s), now)];
      return None;
    }

    method MoveTo(id: string, next: JobState, setters: map<Column, Value>, now: int) returns (err: Option<Error>)
      requires Valid()
      modifies this
      ensures Valid() && Contents() == After(old(Contents()), Transition(id, next, setters, now))
      ensures err == (if id !in old(rows) then Some(NotFound)
                      else if !IsValidTransition(old(rows)[id].state, next) then Some(InvalidTransition) else None)
      ensures err.None? ==> id in rows && MovedRow(old(rows)[id], rows[id], next, setters, now)
      ensures err.None? ==>
                && |events| == |old(events)| + 1 && Last(events).job == id && Last(events).recordedAt == now
                && Last(events).payload.Transitioned? && Last(events).payload.from == old(rows)[id].state
                && Last(events).payload.to == next
      ensures forall k :: k != id ==> (k in rows <==> k in old(rows)) && (k in rows ==> rows[k] == old(rows)[k])
    {
      hide Consistent, Keep, IsValidTransition;
      if id in rows { TransitionColumns(rows[id], next, setters, now); }
      OpKeeps(Contents(), Transition(id, next, setters, now));
      if id !in rows { return Some(NotFound); }
      var current := rows[id];
      if !IsValidTransition(current.state, next) { return Some(InvalidTransition); }
      var updates := setters;
      if next == Running {
        if StartedAt !in updates { updates := updates[StartedAt := Int(now)]; }
      } else if IsTerminal(next) {
        if FinishedAt !in updates { updates := updates[FinishedAt := Int(now)]; }
      }
      var redacted := RedactedUpdates(updates);
      rows := rows[id := Row(next, current.createdAt, current.cols + updates)];
      events := events + [Event(id, Transitioned(current.state, next, redacted), now)];
      return None;
    }

    method Checkpoint(id: string, epoch: int, found: int, path: string, now: int) returns (err: Option<Error>)
      requires Valid()
      modifies this
      ensures Valid() && Contents() == After(old(Contents()), RecordCheckpoint(id, epoch, found, path, now))
      ensures err.Some? <==> id !in old(rows)
      ensures err.None? ==>
                && id in rows && CheckpointedRow(old(rows)[id], rows[id], epoch, found, path, now)
                && events == old(events) + [Event(id, Checkpointed(epoch, found, path), now)]
      ensures forall k :: k != id ==> (k in rows <==> k in old(rows)) && (k in rows ==> rows[k] == old(rows)[k])
    {
      hide Consistent;
      OpKeeps(Contents(), RecordCheckpoint(id, epoch, found, path, now));
      if id !in rows { return Some(NotFound); }
      rows := rows[id := CheckpointRow(rows[id], epoch, found, path, now)];
      events := events + [Event(id, Checkpointed(epoch, found, path), now)];
      return None;
    }
  }
}

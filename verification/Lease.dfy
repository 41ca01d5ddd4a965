/** The lease behind leader election: the in-memory locker and the Redis one, for a single key at a time. */
module Lease {
  import opened Words

  datatype Backend = InMemory | Redis

  /** Times are nanoseconds. */
  const SECOND: nat := 1_000_000_000

  datatype Hold = Hold(holder: string, expiresAt: int)

  /** A lease is held and has not run out: up to and including expiresAt in memory, strictly before it in
      Redis, where the key vanishes at its expiry. */
  predicate Held(b: Backend, h: Option<Hold>, now: int) {
    h.Some? && (if b == InMemory then now <= h.value.expiresAt else now < h.value.expiresAt)
  }

  /** The lifetime a backend really grants: Redis is told whole seconds, at least one. */
  function Granted(b: Backend, ttl: nat): nat {
    if b == InMemory then ttl
    else if ttl / SECOND < 1 then SECOND else ttl / SECOND * SECOND
  }

  /** In memory a holder may acquire again; SET NX refuses even the holder. */
  predicate MayAcquire(b: Backend, h: Option<Hold>, holder: string, now: int) {
    !Held(b, h, now) || (b == InMemory && h.value.holder == holder)
  }

  function Acquire(b: Backend, h: Option<Hold>, holder: string, ttl: nat, now: int): (Option<Hold>, bool) {
    if MayAcquire(b, h, holder, now) then (Some(Hold(holder, now + Granted(b, ttl))), true) else (h, false)
  }

  function Refresh(b: Backend, h: Option<Hold>, holder: string, ttl: nat, now: int): (Option<Hold>, bool) {
    if Held(b, h, now) && h.value.holder == holder then (Some(Hold(holder, now + Granted(b, ttl))), true)
      else (h, false)
  }

  /** In memory even an expired lease can be released by its holder. */
  function Release(b: Backend, h: Option<Hold>, holder: string, now: int): (Option<Hold>, bool) {
    if h.Some? && h.value.holder == holder && (b == InMemory || Held(b, h, now)) then (None, true) else (h, false)
  }

  /** A stale holder's Refresh or Release fails and never alters somebody else's lease. */
  lemma StaleHolderHarmless(b: Backend, h: Option<Hold>, stale: string, ttl: nat, now: int)
    requires h.Some? && h.value.holder != stale
    ensures Refresh(b, h, stale, ttl, now) == (h, false) && Release(b, h, stale, now) == (h, false)
    ensures Held(b, h, now) ==> Acquire(b, h, stale, ttl, now) == (h, false)
  {
  }

  /** The time to live a caller asks for is granted in full unless the backend is Redis and the value is
      more than a second and not a whole number of seconds. */
  lemma TtlHonouredIff(b: Backend, ttl: nat)
    ensures Granted(b, ttl) >= ttl <==> b == InMemory || ttl <= SECOND || ttl % SECOND == 0
  {
  }

  /** The backends differ in what they grant unless the time to live is a positive number of whole seconds. */
  lemma GrantedAlikeIff(ttl: nat)
    ensures Granted(InMemory, ttl) == Granted(Redis, ttl) <==> ttl >= SECOND && ttl % SECOND == 0
  {
  }

  /** When the two lockers behave alike, for every lease time and every state of the lock. An acquire: before
      the expiry the caller is not the holder, at the expiry it is, and whatever is granted is whole seconds. A
      refresh: the caller is not the holder at the very expiry, and whatever is granted is whole seconds. A
      release: the caller is not the holder from the expiry on. */
  lemma LockersAgreeIff(h: Option<Hold>, caller: string, ttl: nat, now: int)
    ensures Acquire(InMemory, h, caller, ttl, now) == Acquire(Redis, h, caller, ttl, now) <==>
            && (h.Some? && now < h.value.expiresAt ==> h.value.holder != caller)
            && (h.Some? && now == h.value.expiresAt ==> h.value.holder == caller)
            && (h.None? || now >= h.value.expiresAt ==> ttl >= SECOND && ttl % SECOND == 0)
    ensures Refresh(InMemory, h, caller, ttl, now) == Refresh(Redis, h, caller, ttl, now) <==>
            (h.Some? && h.value.holder == caller ==>
               && now != h.value.expiresAt
               && (now < h.value.expiresAt ==> ttl >= SECOND && ttl % SECOND == 0))
    ensures Release(InMemory, h, caller, now) == Release(Redis, h, caller, now) <==>
            (h.Some? && h.value.holder == caller ==> now < h.value.expiresAt)
  {
    hide Granted;
    GrantedAlikeIff(ttl);
  }

  /** With a TTL of 2.5 s in Redis a second controller gets the lease after 2.2 s. */
  lemma FractionalTtlExpiresEarly()
    ensures var ttl := 2_500_000_000; var now := 2_200_000_000;
            var h := Acquire(Redis, None, "A", ttl, 0).0;
            now < ttl && Acquire(Redis, h, "B", ttl, now).1
  {
  }

  // ---------------------------------------------------------------- the in-memory locker object

  class InMemoryLocker {
    var holds: map<string, Hold>

    constructor ()
      ensures holds == map[]
    {
      holds := map[];
    }

    function HoldOf(key: string): Option<Hold>
      reads this
    {
      if key in holds then Some(holds[key]) else None
    }

    method TryAcquire(key: string, holder: string, ttl: nat, now: int) returns (ok: bool)
      modifies this
      ensures (HoldOf(key), ok) == Acquire(InMemory, old(HoldOf(key)), holder, ttl, now)
      ensures forall k :: k != key ==> HoldOf(k) == old(HoldOf(k))
    {
      if key !in holds || now > holds[key].expiresAt || holds[key].holder == holder {
        holds := holds[key := Hold(holder, now + ttl)];
        return true;
      }
      return false;
    }

    method Extend(key: string, holder: string, ttl: nat, now: int) returns (ok: bool)
      modifies this
      ensures (HoldOf(key), ok) == Refresh(InMemory, old(HoldOf(key)), holder, ttl, now)
      ensures forall k :: k != key ==> HoldOf(k) == old(HoldOf(k))
    {
      if key !in holds || holds[key].holder != holder || now > holds[key].expiresAt {
        return false;
      }
      holds := holds[key := Hold(holder, now + ttl)];
      return true;
    }

    method Surrender(key: string, holder: string, now: int) returns (ok: bool)
      modifies this
      ensures (HoldOf(key), ok) == Release(InMemory, old(HoldOf(key)), holder, now)
      ensures forall k :: k != key ==> HoldOf(k) == old(HoldOf(k))
    {
      if key !in holds || holds[key].holder != holder {
        return false;
      }
      holds := holds - {key};
      return true;
    }

    method CurrentHolder(key: string, now: int) returns (holder: Option<string>)
      ensures holder.Some? <==> Held(InMemory, HoldOf(key), now)
      ensures holder.Some? ==> HoldOf(key).Some? && holder.value == HoldOf(key).value.holder
    {
      if key !in holds || now > holds[key].expiresAt { return None; }
      return Some(holds[key].holder);
    }
  }

  // ---------------------------------------------------------------- lease windows

  datatype Op = AcquireOp(holder: string, ttl: nat) | RefreshOp(holder: string, ttl: nat) | ReleaseOp(holder: string)

  /** An operation and the clock reading under which it runs. */
  datatype Timed = Timed(now: int, op: Op)

  /** The half-open interval during which a holder has had the lease. */
  datatype Window = Window(holder: string, start: int, end: int)

  datatype History = History(hold: Option<Hold>, windows: seq<Window>)

  /** The first instant at which a lease no longer holds. */
  function EndOf(b: Backend, h: Hold): int {
    if b == InMemory then h.expiresAt + 1 else h.expiresAt
  }

  function Extended(ws: seq<Window>, end: int): (r: seq<Window>)
    requires ws != []
    ensures |r| == |ws|
  {
    ws[|ws| - 1 := Last(ws).(end := end)]
  }

  function Perform(b: Backend, s: History, t: Timed): History {
    match t.op
    case AcquireOp(holder, ttl) =>
      var (h, ok) := Acquire(b, s.hold, holder, ttl, t.now);
      if !ok then s
      else if Held(b, s.hold, t.now) && s.windows != [] then History(h, Extended(s.windows, EndOf(b, h.value)))
      else History(h, s.windows + [Window(holder, t.now, EndOf(b, h.value))])
    case RefreshOp(holder, ttl) =>
      var (h, ok) := Refresh(b, s.hold, holder, ttl, t.now);
      if ok && s.windows != [] then History(h, Extended(s.windows, EndOf(b, h.value))) else s
    case ReleaseOp(holder) =>
      var (h, ok) := Release(b, s.hold, holder, t.now);
      if ok && s.windows != []
        then History(h, Extended(s.windows, if Last(s.windows).end < t.now then Last(s.windows).end else t.now))
      else s
  }

  predicate Ordered(ws: seq<Window>, now: int) {
    && (forall i, j :: 0 <= i < j < |ws| ==> ws[i].end <= ws[j].start)
    && (forall i :: 0 <= i < |ws| ==> ws[i].start <= ws[i].end && ws[i].start <= now)
  }

  /** Windows are in order, and the last one is the current lease or already over. */
  predicate Orderly(b: Backend, s: History, now: int) {
    && Ordered(s.windows, now)
    && (s.hold.Some? ==>
          && s.windows != [] && Last(s.windows).holder == s.hold.value.holder
          && Last(s.windows).end == EndOf(b, s.hold.value))
    && (s.hold.None? && s.windows != [] ==> Last(s.windows).end <= now)
  }

  lemma ExtendedOrdered(ws: seq<Window>, end: int, now: int, later: int)
    requires ws != [] && Ordered(ws, now) && now <= later && Last(ws).start <= end
    ensures Ordered(Extended(ws, end), later) && Last(Extended(ws, end)) == Last(ws).(end := end)
  {
  }

  lemma AppendedOrdered(ws: seq<Window>, w: Window, now: int, later: int)
    requires Ordered(ws, now) && now <= later && w.start <= w.end && w.start <= later
    requires ws != [] ==> Last(ws).end <= w.start
    ensures Ordered(ws + [w], later)
  {
    forall i | 0 <= i < |ws| ensures ws[i].end <= w.start {
      assert i < |ws| - 1 ==> ws[i].end <= Last(ws).start;
    }
  }

  lemma PerformOrderly(b: Backend, s: History, now: int, t: Timed)
    requires Orderly(b, s, now) && now <= t.now
    ensures Orderly(b, Perform(b, s, t), t.now)
  {
    hide Granted, Ordered, Extended;
    OrderedLast(s.windows, now);
    OrderedLater(s.windows, now, t.now);
    match t.op
    case AcquireOp(holder, ttl) =>
      var end := EndOf(b, Hold(holder, t.now + Granted(b, ttl)));
      if s.windows != [] { ExtendedOrdered(s.windows, end, now, t.now); }
      if !Held(b, s.hold, t.now) { AppendedOrdered(s.windows, Window(holder, t.now, end), now, t.now); }
    case RefreshOp(holder, ttl) =>
      var end := EndOf(b, Hold(holder, t.now + Granted(b, ttl)));
      if s.windows != [] { ExtendedOrdered(s.windows, end, now, t.now); }
    case ReleaseOp(holder) =>
      if s.windows != [] {
        ExtendedOrdered(s.windows, if Last(s.windows).end < t.now then Last(s.windows).end else t.now, now, t.now);
      }
  }

  lemma OrderedLast(ws: seq<Window>, now: int)
    requires Ordered(ws, now)
    ensures ws != [] ==> Last(ws).start <= now && Last(ws).start <= Last(ws).end
  {
  }

  lemma OrderedLater(ws: seq<Window>, now: int, later: int)
    requires Ordered(ws, now) && now <= later
    ensures Ordered(ws, later)
  {
  }

  function PerformAll(b: Backend, ts: seq<Timed>): History {
    if ts == [] then History(None, []) else Perform(b, PerformAll(b, ts[..|ts| - 1]), Last(ts))
  }

  predicate Monotone(ts: seq<Timed>) {
    forall i, j :: 0 <= i < j < |ts| ==> ts[i].now <= ts[j].now
  }

  lemma {:induction false} HistoryOrderly(b: Backend, ts: seq<Timed>)
    requires ts != [] && Monotone(ts)
    ensures Orderly(b, PerformAll(b, ts), Last(ts).now)
  {
    hide Orderly, Perform;
    var n := |ts| - 1;
    if n == 0 {
      EmptyOrderly(b, ts[0].now);
      assert ts[..0] == [];
      PerformOrderly(b, History(None, []), ts[0].now, ts[0]);
    } else {
      HistoryOrderly(b, ts[..n]);
      PerformOrderly(b, PerformAll(b, ts[..n]), ts[n - 1].now, ts[n]);
    }
  }

  lemma EmptyOrderly(b: Backend, now: int)
    ensures Orderly(b, History(None, []), now)
  {
  }

  /** Lease windows never overlap: in any run under a monotone clock no instant lies in two of them. */
  lemma WindowsDisjoint(b: Backend, ts: seq<Timed>, i: nat, j: nat, at: int)
    requires Monotone(ts)
    requires var ws := PerformAll(b, ts).windows; i < j < |ws|
    ensures var ws := PerformAll(b, ts).windows;
            !(ws[i].start <= at < ws[i].end && ws[j].start <= at < ws[j].end)
  {
    hide Perform;
    HistoryOrderly(b, ts);
  }

  /** Whoever the lock names at the end of a run owns the one window that covers that instant. */
  lemma HolderOwnsWindow(b: Backend, ts: seq<Timed>)
    requires Monotone(ts) && ts != [] && Held(b, PerformAll(b, ts).hold, Last(ts).now)
    ensures var s := PerformAll(b, ts); var now := Last(ts).now;
            && s.windows != [] && Last(s.windows).holder == s.hold.value.holder
            && forall i :: 0 <= i < |s.windows| ==>
               (s.windows[i].start <= now < s.windows[i].end <==> i + 1 == |s.windows|)
  {
    hide Perform;
    HistoryOrderly(b, ts);
  }
}

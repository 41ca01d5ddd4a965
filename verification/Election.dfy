/** Leader election: any number of electors over one lease, as a timed transition system. Replies of the
    locker may be lost, with or without the request having taken effect. */
module Election {
  import opened Words
  import opened Lease

  /** Live electors run their loop; Stopping ones have seen the cancellation but not yet released;
      Released ones have released but not yet cleared their flag. */
  datatype Phase = Live | Stopping | Released | Stopped | Crashed

  datatype Elector = Elector(ttl: nat, poll: nat, leader: bool, phase: Phase, lastGrant: int, lastTry: int)

  datatype System = System(backend: Backend, now: int, hold: Option<Hold>, electors: map<string, Elector>)

  datatype Reply = Answered | Lost(applied: bool)

  datatype Step =
    | Join(id: string, ttl: nat, poll: nat)
    | TryAcquire(id: string, reply: Reply)
    | RefreshTick(id: string, reply: Reply)
    | Cancel(id: string)
    | ReleaseLease(id: string, reply: Reply)
    | ClearFlag(id: string)
    | Crash(id: string)
    | Tick(time: int)

  function With(s: System, id: string, e: Elector): System {
    s.(electors := s.electors[id := e])
  }

  /** The timing guard: time does not pass the expiry of the lease that a live leader was last granted. */
  predicate InTime(b: Backend, id: string, e: Elector, time: int) {
    e.phase == Live && e.leader ==> Held(b, Some(Hold(id, e.lastGrant + Granted(b, e.ttl))), time)
  }

  predicate Enabled(s: System, x: Step) {
    match x
    case Join(id, _, _) => id !in s.electors
    case TryAcquire(id, _) => id in s.electors && s.electors[id].phase == Live && !s.electors[id].leader
    case RefreshTick(id, reply) => id in s.electors && s.electors[id].leader
                                   && (s.electors[id].phase == Live
                                       || (s.electors[id].phase == Stopping && reply.Lost?))
    case Cancel(id) => id in s.electors && s.electors[id].phase == Live
    case ReleaseLease(id, _) => id in s.electors && s.electors[id].phase == Stopping && s.electors[id].leader
    case ClearFlag(id) => id in s.electors &&
                          (s.electors[id].phase == Released
                            || (s.electors[id].phase == Stopping && !s.electors[id].leader))
    case Crash(id) => id in s.electors
    case Tick(time) => s.now <= time && forall id :: id in s.electors ==> InTime(s.backend, id, s.electors[id], time)
  }

  /** One step. A refresh that fails for any reason but cancellation clears the flag; a cancelled one
      (the elector is stopping) leaves it. */
  function Do(s: System, x: Step): System
    requires Enabled(s, x)
  {
    match x
    case Join(id, ttl, poll) => With(s, id, Elector(ttl, poll, false, Live, s.now, s.now))
    case TryAcquire(id, reply) =>
      var e := s.electors[id];
      var (h, ok) := Acquire(s.backend, s.hold, id, e.ttl, s.now);
      (match reply
       case Answered =>
         var e' := e.(lastTry := s.now);
         With(s, id, if ok then e'.(leader := true, lastGrant := s.now) else e').(hold := h)
       case Lost(applied) => if applied then s.(hold := h) else s)
    case RefreshTick(id, reply) =>
      var e := s.electors[id];
      var (h, ok) := Refresh(s.backend, s.hold, id, e.ttl, s.now);
      var flag := if e.phase == Stopping then e.leader else if reply.Answered? then ok else false;
      With(s, id, e.(leader := flag, lastGrant := if reply.Answered? && ok then s.now else e.lastGrant))
        .(hold := if reply == Lost(false) then s.hold else h)
    case Cancel(id) => With(s, id, s.electors[id].(phase := Stopping))
    case ReleaseLease(id, reply) =>
      var (h, _) := Release(s.backend, s.hold, id, s.now);
      With(s, id, s.electors[id].(phase := Released)).(hold := if reply == Lost(false) then s.hold else h)
    case ClearFlag(id) => With(s, id, s.electors[id].(phase := Stopped, leader := false))
    case Crash(id) => With(s, id, s.electors[id].(phase := Crashed, leader := false))
    case Tick(time) => s.(now := time)
  }

  predicate IsLeader(s: System, id: string) {
    id in s.electors && s.electors[id].phase == Live && s.electors[id].leader
  }

  // ---------------------------------------------------------------- at most one leader

  /** A live leader holds the lease it believes in. */
  ghost predicate LeadersHold(s: System) {
    forall id :: IsLeader(s, id) ==>
      && s.hold == Some(Hold(id, s.electors[id].lastGrant + Granted(s.backend, s.electors[id].ttl)))
      && Held(s.backend, s.hold, s.now)
  }

  predicate TimesPast(s: System) {
    forall id :: id in s.electors ==> s.electors[id].lastGrant <= s.now && s.electors[id].lastTry <= s.now
  }

  ghost predicate Inv(s: System) {
    LeadersHold(s) && TimesPast(s)
  }

  lemma TimesKept(s: System, x: Step)
    requires TimesPast(s) && Enabled(s, x)
    ensures TimesPast(Do(s, x))
  {
    hide Granted, Held, InTime;
  }

  lemma FreshGrantHeld(b: Backend, id: string, ttl: nat, now: int)
    ensures Held(b, Some(Hold(id, now + Granted(b, ttl))), now)
  {
  }

  lemma AcquireKeeps(s: System, id: string, reply: Reply)
    requires LeadersHold(s) && Enabled(s, TryAcquire(id, reply))
    ensures LeadersHold(Do(s, TryAcquire(id, reply)))
  {
    hide Granted;
    FreshGrantHeld(s.backend, id, s.electors[id].ttl, s.now);
    forall k | IsLeader(s, k) ensures k != id && !MayAcquire(s.backend, s.hold, id, s.now) {
      StaleHolderHarmless(s.backend, s.hold, id, s.electors[id].ttl, s.now);
    }
  }

  lemma RefreshKeeps(s: System, id: string, reply: Reply)
    requires LeadersHold(s) && Enabled(s, RefreshTick(id, reply))
    ensures LeadersHold(Do(s, RefreshTick(id, reply)))
  {
    hide Granted;
    FreshGrantHeld(s.backend, id, s.electors[id].ttl, s.now);
    var t := Do(s, RefreshTick(id, reply));
    forall k | IsLeader(t, k)
      ensures t.hold == Some(Hold(k, t.electors[k].lastGrant + Granted(t.backend, t.electors[k].ttl)))
              && Held(t.backend, t.hold, t.now)
    {
      if k != id {
        assert IsLeader(s, k);
        StaleHolderHarmless(s.backend, s.hold, id, s.electors[id].ttl, s.now);
      } else {
        assert IsLeader(s, k);
      }
    }
  }

  lemma ReleaseKeeps(s: System, id: string, reply: Reply)
    requires LeadersHold(s) && Enabled(s, ReleaseLease(id, reply))
    ensures LeadersHold(Do(s, ReleaseLease(id, reply)))
  {
    hide Granted;
    var t := Do(s, ReleaseLease(id, reply));
    forall k | IsLeader(t, k)
      ensures t.hold == Some(Hold(k, t.electors[k].lastGrant + Granted(t.backend, t.electors[k].ttl)))
              && Held(t.backend, t.hold, t.now)
    {
      assert k != id && IsLeader(s, k);
      StaleHolderHarmless(s.backend, s.hold, id, s.electors[id].ttl, s.now);
    }
  }

  lemma StepKeeps(s: System, x: Step)
    requires Inv(s) && Enabled(s, x)
    ensures Inv(Do(s, x))
  {
    hide Granted, TimesPast;
    TimesKept(s, x);
    match x
    case TryAcquire(id, reply) => AcquireKeeps(s, id, reply);
    case RefreshTick(id, reply) => RefreshKeeps(s, id, reply);
    case ReleaseLease(id, reply) => ReleaseKeeps(s, id, reply);
    case Tick(time) =>
      forall id | IsLeader(s, id) ensures Held(s.backend, s.hold, time) {
        assert InTime(s.backend, id, s.electors[id], time);
      }
    case Join(id, _, _) => OthersKeep(s, x, id);
    case Cancel(id) => OthersKeep(s, x, id);
    case ClearFlag(id) => OthersKeep(s, x, id);
    case Crash(id) => OthersKeep(s, x, id);
  }

  lemma OthersKeep(s: System, x: Step, id: string)
    requires LeadersHold(s) && Enabled(s, x)
    requires x.Join? || x.Cancel? || x.ClearFlag? || x.Crash?
    requires id == x.id
    ensures LeadersHold(Do(s, x))
  {
    hide Granted, Held;
    var t := Do(s, x);
    assert t.hold == s.hold && t.now == s.now && t.backend == s.backend;
    forall k | IsLeader(t, k)
      ensures t.hold == Some(Hold(k, t.electors[k].lastGrant + Granted(t.backend, t.electors[k].ttl)))
              && Held(t.backend, t.hold, t.now)
    {
      assert k != id && IsLeader(s, k);
    }
  }

  /** A run: consecutive states are one enabled step apart. */
  ghost predicate Run(ss: seq<System>, xs: seq<Step>) {
    |ss| == |xs| + 1 && forall i :: 0 <= i < |xs| ==> Enabled(ss[i], xs[i]) && ss[i + 1] == Do(ss[i], xs[i])
  }

  lemma {:induction false} RunInv(ss: seq<System>, xs: seq<Step>, i: nat)
    requires Run(ss, xs) && Inv(ss[0]) && i < |ss|
    ensures Inv(ss[i])
  {
    hide Inv, Enabled, Do;
    if i == 0 {
    } else {
      RunInv(ss, xs, i - 1);
      assert Enabled(ss[i - 1], xs[i - 1]) && ss[i] == Do(ss[i - 1], xs[i - 1]);
      StepKeeps(ss[i - 1], xs[i - 1]);
    }
  }

  /** At most one leader: in every state of every run that starts without electors, any two live electors
      that consider themselves leader are the same one. */
  lemma AtMostOneLeader(ss: seq<System>, xs: seq<Step>, i: nat, a: string, b: string)
    requires Run(ss, xs) && ss[0].electors == map[] && i < |ss|
    requires IsLeader(ss[i], a) && IsLeader(ss[i], b)
    ensures a == b
    ensures ss[i].hold.Some? && ss[i].hold.value.holder == a && Held(ss[i].backend, ss[i].hold, ss[i].now)
  {
    hide Enabled, Do, Held;
    RunInv(ss, xs, i);
  }

  /** The flag of an elector rises exactly by a granted Acquire of its own that was answered, and then it holds
      a fresh lease. */
  lemma FlagRises(s: System, x: Step, id: string)
    requires Enabled(s, x) && id in s.electors && !s.electors[id].leader
    ensures id in Do(s, x).electors
    ensures Do(s, x).electors[id].leader <==> x == TryAcquire(id, Answered) && MayAcquire(s.backend, s.hold, id, s.now)
    ensures Do(s, x).electors[id].leader ==>
              Do(s, x).hold == Some(Hold(id, s.now + Granted(s.backend, s.electors[id].ttl)))
  {
    hide Granted, Held;
  }

  /** A leader's refresh that is answered keeps it leader, with a fresh lease. */
  lemma RefreshRenews(s: System, id: string)
    requires Inv(s) && IsLeader(s, id)
    ensures Enabled(s, RefreshTick(id, Answered))
    ensures var t := Do(s, RefreshTick(id, Answered));
            IsLeader(t, id) && t.hold == Some(Hold(id, s.now + Granted(s.backend, s.electors[id].ttl)))
  {
    hide Granted;
  }

  /** Exactly when a live leader loses its flag while it stays live: a refresh of its own went unanswered or was
      refused. */
  lemma FlagFallsIff(s: System, x: Step, id: string)
    requires Enabled(s, x) && IsLeader(s, id)
    ensures id in Do(s, x).electors
    ensures Do(s, x).electors[id].phase == Live && !Do(s, x).electors[id].leader <==>
            && x.RefreshTick? && x.id == id
            && (x.reply.Lost? || !(Held(s.backend, s.hold, s.now) && s.hold.value.holder == id))
  {
    hide Granted, Held;
  }

  /** Exactly which steps end a leadership in a reachable state: its own cancellation or crash, and a refresh of
      its own whose reply is lost. */
  lemma LeadershipEndsIff(s: System, x: Step, id: string)
    requires Inv(s) && Enabled(s, x) && IsLeader(s, id)
    ensures !IsLeader(Do(s, x), id) <==>
            x == Cancel(id) || x == Crash(id) || (x.RefreshTick? && x.id == id && x.reply.Lost?)
  {
    hide Granted, Held;
    if x.RefreshTick? && x.id == id && x.reply.Answered? { RefreshRenews(s, id); }
  }

  /** A leader stays leader in any run in which its refreshes are answered in time and it is neither cancelled
      nor crashed. */
  lemma {:induction false} LeadershipLasts(ss: seq<System>, xs: seq<Step>, i: nat, j: nat, id: string)
    requires Run(ss, xs) && Inv(ss[0]) && i <= j < |ss| && IsLeader(ss[i], id)
    requires forall k :: i <= k < j ==> Harmless(xs[k], id)
    ensures IsLeader(ss[j], id)
    decreases j
  {
    hide Enabled, Do, Inv, IsLeader;
    if i == j {
    } else {
      LeadershipLasts(ss, xs, i, j - 1, id);
      RunInv(ss, xs, j - 1);
      assert Enabled(ss[j - 1], xs[j - 1]) && ss[j] == Do(ss[j - 1], xs[j - 1]);
      assert Harmless(xs[j - 1], id);
      LeadershipEndsIff(ss[j - 1], xs[j - 1], id);
    }
  }

  predicate Harmless(x: Step, id: string) {
    x != Cancel(id) && x != Crash(id) && !(x.RefreshTick? && x.id == id && x.reply.Lost?)
  }

  /** What a step leaves alone: only Tick moves the clock, and to its time; every elector but the one acting is
      as before; lease times and poll intervals never change. */
  lemma StepFrame(s: System, x: Step, k: string)
    requires Enabled(s, x)
    ensures Do(s, x).now == (if x.Tick? then x.time else s.now) && Do(s, x).backend == s.backend
    ensures k in s.electors ==>
              && k in Do(s, x).electors && Do(s, x).electors[k].ttl == s.electors[k].ttl
              && Do(s, x).electors[k].poll == s.electors[k].poll
              && (x.Tick? || k != x.id ==> Do(s, x).electors[k] == s.electors[k])
    ensures k !in s.electors && k in Do(s, x).electors ==> x.Join? && x.id == k && !Do(s, x).electors[k].leader
  {
    hide Granted, Held, InTime;
  }

  /** How an elector's life proceeds: cancellation leads from live to stopping, then, by way of the release if it
      led, to stopped with its flag down; a crash is possible at any time. */
  lemma LifeCycle(s: System, x: Step, id: string)
    requires Enabled(s, x) && id in s.electors
    ensures id in Do(s, x).electors
    ensures var p := s.electors[id].phase; var q := Do(s, x).electors[id].phase;
            p != q ==>
              || (q == Crashed && x == Crash(id))
              || (p == Live && q == Stopping && x == Cancel(id))
              || (p == Stopping && q == Released && x.ReleaseLease? && s.electors[id].leader)
              || ((p == Released || p == Stopping) && q == Stopped && x == ClearFlag(id))
    ensures var e := Do(s, x).electors[id];
            x == ClearFlag(id) || x == Crash(id) ==> !e.leader && (e.phase == Stopped || e.phase == Crashed)
  {
    hide Granted, Held, InTime;
  }

  /** Why the claim is about electors that are not shutting down: a stopping leader releases before it
      clears its flag, and in between another elector can become leader. */
  lemma StoppingLeaderOverlaps(s: System, a: string, b: string)
    requires a != b && a in s.electors && b in s.electors
    requires s.electors[a].phase == Stopping && s.electors[a].leader && s.hold.Some? && s.hold.value.holder == a
    requires Held(s.backend, s.hold, s.now) && s.electors[b].phase == Live && !s.electors[b].leader
    ensures Enabled(s, ReleaseLease(a, Answered))
    ensures var t := Do(s, ReleaseLease(a, Answered));
            Enabled(t, TryAcquire(b, Answered)) &&
            var u := Do(t, TryAcquire(b, Answered)); u.electors[a].leader && u.electors[b].leader
  {
    hide Granted;
  }

  lemma RunOn(ss: seq<System>, xs: seq<Step>, x: Step) returns (ts: seq<System>, ys: seq<Step>)
    requires ss != [] && Run(ss, xs) && Enabled(Last(ss), x)
    ensures ts != [] && Run(ts, ys) && ts[0] == ss[0] && Last(ts) == Do(Last(ss), x)
  {
    hide Enabled, Do;
    ts, ys := ss + [Do(Last(ss), x)], xs + [x];
    forall i | 0 <= i < |ys| ensures Enabled(ts[i], ys[i]) && ts[i + 1] == Do(ts[i], ys[i]) {
      if i < |xs| { assert Enabled(ss[i], xs[i]) && ss[i + 1] == Do(ss[i], xs[i]); }
    }
  }

  /** The overlap can occur: with either backend and any lease times, a run from no electors ends with two
      flags up. */
  lemma OverlapReachable(backend: Backend, a: string, b: string, ttl: nat, poll: nat, now: int)
    returns (ss: seq<System>, xs: seq<Step>)
    requires a != b
    ensures Run(ss, xs) && ss[0] == System(backend, now, None, map[])
    ensures var s := Last(ss); a in s.electors && b in s.electors && s.electors[a].leader && s.electors[b].leader
  {
    hide Granted, Run;
    var s0 := System(backend, now, None, map[]);
    ss, xs := [s0], [];
    assert Run(ss, xs) by { NoStep(s0); }
    ss, xs := RunOn(ss, xs, Join(a, ttl, poll));
    ss, xs := RunOn(ss, xs, TryAcquire(a, Answered));
    FreshGrantHeld(backend, a, ttl, now);
    assert Last(ss).electors[a].leader && Last(ss).hold == Some(Hold(a, now + Granted(backend, ttl)));
    ss, xs := RunOn(ss, xs, Join(b, ttl, poll));
    ss, xs := RunOn(ss, xs, Cancel(a));
    var s := Last(ss);
    StoppingLeaderOverlaps(s, a, b);
    ss, xs := RunOn(ss, xs, ReleaseLease(a, Answered));
    ss, xs := RunOn(ss, xs, TryAcquire(b, Answered));
  }

  lemma NoStep(s: System)
    ensures Run([s], [])
  {
  }

  // ---------------------------------------------------------------- failover

  /** A live elector holds an unexpired lease. */
  predicate LiveHolder(s: System) {
    Held(s.backend, s.hold, s.now) && s.hold.value.holder in s.electors && s.electors[s.hold.value.holder].phase == Live
  }

  /** Follower f stays live, and while it follows it gets an answer from the locker at least once in every
      poll interval. */
  ghost predicate Polls(ss: seq<System>, xs: seq<Step>, f: string) {
    && (forall i :: 0 <= i < |ss| ==> f in ss[i].electors && ss[i].electors[f].phase == Live)
    && (forall i :: 0 <= i < |ss| && !ss[i].electors[f].leader ==>
        ss[i].now <= ss[i].electors[f].lastTry + ss[i].electors[f].poll)
  }

  /** The leader has crashed: its lease is still in the locker and nobody live holds one. */
  predicate LeaderGone(s: System, dead: string) {
    && dead in s.electors && s.electors[dead].phase == Crashed
    && s.hold.Some? && s.hold.value.holder == dead
  }

  /** As long as nobody live has held the lease, the crashed leader's lease sits unchanged and the
      follower's last attempt lies no later than its expiry. */
  lemma {:induction false} StillWaiting(ss: seq<System>, xs: seq<Step>, f: string, dead: string, i: nat)
    requires Run(ss, xs) && Inv(ss[0]) && i < |ss| && Polls(ss, xs, f) && LeaderGone(ss[0], dead) && f != dead
    requires ss[0].electors[f].lastTry <= ss[0].hold.value.expiresAt
    requires forall k :: 0 <= k <= i ==> !LiveHolder(ss[k])
    ensures LeaderGone(ss[i], dead) && ss[i].hold == ss[0].hold && ss[i].electors[f].poll == ss[0].electors[f].poll
    ensures !ss[i].electors[f].leader && ss[i].electors[f].lastTry <= ss[0].hold.value.expiresAt
  {
    RunInv(ss, xs, i);
    if i == 0 {
    } else {
      StillWaiting(ss, xs, f, dead, i - 1);
      var s, t, x := ss[i - 1], ss[i], xs[i - 1];
      assert Enabled(s, x) && t == Do(s, x);
      HoldChange(s, x, dead);
    }
    if ss[i].electors[f].leader { assert IsLeader(ss[i], f); }
  }

  /** A step that does not end with a live holder leaves a crashed leader's lease alone. */
  lemma HoldChange(s: System, x: Step, dead: string)
    requires Enabled(s, x) && LeaderGone(s, dead)
    ensures LiveHolder(Do(s, x)) || (LeaderGone(Do(s, x), dead) && Do(s, x).hold == s.hold)
    ensures LiveHolder(Do(s, x)) ==> Do(s, x).now == s.now
    ensures !LiveHolder(Do(s, x)) && x.TryAcquire? && x.reply.Answered? ==> s.now <= s.hold.value.expiresAt
    ensures forall f :: f in s.electors && s.electors[f].phase == Live && f in Do(s, x).electors ==>
              && Do(s, x).electors[f].poll == s.electors[f].poll
              && (Do(s, x).electors[f].lastTry == s.electors[f].lastTry
                  || (x == TryAcquire(f, Answered) && Do(s, x).electors[f].lastTry == s.now))
  {
    hide Granted;
    if x.TryAcquire? {
      FreshGrantHeld(s.backend, x.id, s.electors[x.id].ttl, s.now);
    }
  }

  /** No acquire that took effect lost its reply. */
  predicate GrantsAnswered(xs: seq<Step>) {
    forall i :: 0 <= i < |xs| && xs[i].TryAcquire? ==> xs[i].reply != Lost(true)
  }

  /** A live elector holds the lease, and unless the reply to a grant was lost, it knows that it leads. */
  predicate TakenOver(s: System, answered: bool) {
    LiveHolder(s) && (answered ==> IsLeader(s, s.hold.value.holder))
  }

  /** Whoever takes over from a crashed leader by an answered acquire leads. */
  lemma TakeoverLeads(s: System, x: Step, dead: string)
    requires Enabled(s, x) && LeaderGone(s, dead) && LiveHolder(Do(s, x))
    ensures TakenOver(Do(s, x), x.TryAcquire? ==> x.reply != Lost(true))
  {
    hide Granted;
  }

  /** Failover bound: if the leader crashes and some live follower keeps polling, then in any run whose
      clock passes expiry + poll interval, a live elector has held the lease by then, as leader unless the
      reply to a grant was lost. The expiry is at most the lease TTL after the leader's last grant, hence
      after its crash. */
  lemma FailoverBound(ss: seq<System>, xs: seq<Step>, f: string, dead: string)
    requires Run(ss, xs) && Inv(ss[0]) && Polls(ss, xs, f) && LeaderGone(ss[0], dead) && f != dead
    requires ss[0].electors[f].lastTry <= ss[0].hold.value.expiresAt
    requires Last(ss).now > ss[0].hold.value.expiresAt + ss[0].electors[f].poll
    ensures exists i ::
              && 0 <= i < |ss| && TakenOver(ss[i], GrantsAnswered(xs))
              && ss[i].now <= ss[0].hold.value.expiresAt + ss[0].electors[f].poll
  {
    var n := |ss| - 1;
    if forall k :: 0 <= k <= n ==> !LiveHolder(ss[k]) {
      StillWaiting(ss, xs, f, dead, n);
    } else {
      var i := FirstHolder(ss, n);
      assert i > 0;
      StillWaiting(ss, xs, f, dead, i - 1);
      assert Enabled(ss[i - 1], xs[i - 1]) && ss[i] == Do(ss[i - 1], xs[i - 1]);
      HoldChange(ss[i - 1], xs[i - 1], dead);
      TakeoverLeads(ss[i - 1], xs[i - 1], dead);
      assert TakenOver(ss[i], GrantsAnswered(xs));
    }
  }

  lemma {:induction false} FirstHolder(ss: seq<System>, n: nat) returns (i: nat)
    requires n < |ss| && exists k :: 0 <= k <= n && LiveHolder(ss[k])
    ensures i <= n && LiveHolder(ss[i]) && forall k :: 0 <= k < i ==> !LiveHolder(ss[k])
  {
    if n > 0 && exists k :: 0 <= k <= n - 1 && LiveHolder(ss[k]) {
      i := FirstHolder(ss, n - 1);
    } else {
      i := n;
    }
  }

  /** The same bound measured from the crash itself: when the leader crashes at time t, a live elector
      holds the lease no later than t + lease TTL + poll interval, as leader unless the reply to a grant was
      lost. */
  lemma FailoverAfterCrash(ss: seq<System>, xs: seq<Step>, f: string, dead: string)
    requires Run(ss, xs) && Inv(ss[0]) && |xs| >= 1 && Polls(ss, xs, f) && f != dead
    requires IsLeader(ss[0], dead) && xs[0] == Crash(dead)
    requires Last(ss).now > ss[0].now + Granted(ss[0].backend, ss[0].electors[dead].ttl) + ss[0].electors[f].poll
    ensures exists i ::
              && 0 < i < |ss| && TakenOver(ss[i], GrantsAnswered(xs))
              && ss[0].now <= ss[i].now <= ss[0].now + Granted(ss[0].backend, ss[0].electors[dead].ttl)
                 + ss[0].electors[f].poll
  {
    hide Granted;
    var rs, ys := ss[1..], xs[1..];
    assert Enabled(ss[0], xs[0]) && ss[1] == Do(ss[0], xs[0]);
    StepKeeps(ss[0], xs[0]);
    assert Run(rs, ys) by {
      forall i | 0 <= i < |ys| ensures Enabled(rs[i], ys[i]) && rs[i + 1] == Do(rs[i], ys[i]) {
        assert Enabled(ss[i + 1], xs[i + 1]) && ss[i + 2] == Do(ss[i + 1], xs[i + 1]);
      }
    }
    assert Polls(rs, ys, f) by {
      forall i | 0 <= i < |rs| ensures rs[i] == ss[i + 1] {}
    }
    FailoverBound(rs, ys, f, dead);
    var answered := GrantsAnswered(ys);
    var k :|
      && 0 <= k < |rs| && TakenOver(rs[k], answered)
      && rs[k].now <= rs[0].hold.value.expiresAt + rs[0].electors[f].poll;
    assert GrantsAnswered(xs) ==> answered by {
      assert forall i :: 0 <= i < |ys| ==> ys[i] == xs[i + 1];
    }
    assert TakenOver(ss[k + 1], GrantsAnswered(xs));
    ClockMonotone(ss, xs, k + 1);
  }

  lemma {:induction false} ClockMonotone(ss: seq<System>, xs: seq<Step>, i: nat)
    requires Run(ss, xs) && i < |ss|
    ensures ss[0].now <= ss[i].now
  {
    if i == 0 {
    } else {
      ClockMonotone(ss, xs, i - 1);
      assert Enabled(ss[i - 1], xs[i - 1]) && ss[i] == Do(ss[i - 1], xs[i - 1]);
    }
  }
}

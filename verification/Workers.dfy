/** The worker binary: dispatch over the three backends, the checkpointing loop they share, and the
    determinism contract they all honour. */
module Workers {
  import opened Words
  import Sieve
  import Checkpoint
  import MatMul
  import WordCount
  import opened Crc32

  datatype Worker = Primes | MatMulWorker | WordCountWorker

  /** The command line: --worker, --limit, --checkpoint-every and --seed. */
  datatype Args = Args(worker: Worker, limit: u64, every: u64, seed: u64)

  /** What a backend persists. */
  datatype State =
    | PrimesState(p: Checkpoint.State)
    | MatMulState(m: MatMul.State)
    | WordCountState(w: WordCount.State)

  // ---------------------------------------------------------------- dispatch

  function Fresh(a: Args): State {
    match a.worker
    case Primes => PrimesState(Sieve.Fresh(a.limit))
    case MatMulWorker => MatMulState(MatMul.Fresh(a.limit, a.seed))
    case WordCountWorker => WordCountState(WordCount.Fresh(a.seed, a.limit))
  }

  /** What a backend does to its state before its loop. */
  function Enter(s: State): State {
    match s
    case PrimesState(p) => PrimesState(Sieve.Enter(p))
    case MatMulState(_) => s
    case WordCountState(_) => s
  }

  predicate Done(s: State) {
    match s
    case PrimesState(p) => Sieve.Done(p)
    case MatMulState(m) => MatMul.Done(m)
    case WordCountState(w) => WordCount.Done(w)
  }

  /** One loop iteration. */
  function Advance(s: State): State
    requires !Done(s)
  {
    match s
    case PrimesState(p) => PrimesState(Sieve.Advance(p))
    case MatMulState(m) => MatMul.UnfinishedHasCells(m); MatMulState(MatMul.Advance(m))
    case WordCountState(w) => WordCountState(WordCount.Advance(w))
  }

  /** How much an iteration counts towards the next checkpoint: primes found, cells, or words. */
  function Tick(s: State): nat {
    match s
    case PrimesState(p) => Sieve.Tick(p)
    case MatMulState(_) => 1
    case WordCountState(_) => 1
  }

  /** The progress a checkpoint cadence is measured in. */
  function Units(s: State): nat {
    match s
    case PrimesState(p) => p.found
    case MatMulState(m) => m.nextCell
    case WordCountState(w) => w.nextWord
  }

  function Cursor(s: State): nat {
    match s
    case PrimesState(p) => p.next
    case MatMulState(m) => m.nextCell
    case WordCountState(w) => w.nextWord
  }

  /** The "found" field of a checkpoint line. */
  ghost function Found(s: State): u64 {
    match s
    case PrimesState(p) => p.found
    case MatMulState(m) => m.fingerprint
    case WordCountState(w) => WordCount.CountsHash(w.counts)
  }

  /** The bytes of the state file. */
  ghost function Render(s: State): seq<byte> {
    match s
    case PrimesState(p) => Checkpoint.Render(p)
    case MatMulState(m) => MatMul.Render(m)
    case WordCountState(w) => WordCount.Render(w)
  }

  function Load(w: Worker, b: seq<byte>): Option<State> {
    match w
    case Primes => (match Checkpoint.ReadState(b) case Ok(p) => Some(PrimesState(p)) case Err(_) => None)
    case MatMulWorker => (match MatMul.ReadState(b) case Ok(m) => Some(MatMulState(m)) case Err(_) => None)
    case WordCountWorker => (match WordCount.ReadState(b) case Ok(c) => Some(WordCountState(c)) case Err(_) => None)
  }

  /** The resume check of the command-line parameters against the file. */
  predicate Matches(a: Args, s: State) {
    match s
    case PrimesState(p) => a.worker == Primes && p.limit == a.limit
    case MatMulState(m) => a.worker == MatMulWorker && m.n == a.limit && m.seed == a.seed
    case WordCountState(w) => a.worker == WordCountWorker && w.wordsTotal == a.limit && w.seed == a.seed
  }

  /** Start-up: a fresh state, or the resumed file, or the exit code of a refused resume. */
  function Boot(a: Args, resume: bool, file: Option<seq<byte>>): Result<State, nat> {
    if !resume then Ok(Fresh(a))
    else if file.None? then Err(4)
    else match Load(a.worker, file.value)
      case None => Err(4)
      case Some(s) => if Matches(a, s) then Ok(s) else Err(3)
  }

  function Cadence(a: Args): (k: nat)
    ensures k >= 1
  {
    if a.every == 0 then 1 else a.every
  }

  // ---------------------------------------------------------------- states on the deterministic path

  /** Every job except a prime sieve up to 2^64 - 1, whose loop never ends (Sieve.StopsIff). */
  predicate Supported(a: Args) {
    a.worker == Primes ==> a.limit < Sieve.MAX
  }

  /** s is the closed-form state of job a at its own cursor. */
  predicate OnTrack(a: Args, s: State) {
    Matches(a, s) &&
    match s
    case PrimesState(p) => Sieve.OnTrack(p)
    case MatMulState(m) => MatMul.OnTrack(m)
    case WordCountState(w) => WordCount.OnTrack(w)
  }

  /** The result of the job, in closed form. */
  function Final(a: Args): State
    requires Supported(a)
  {
    match a.worker
    case Primes => PrimesState(Sieve.At(a.limit, Sieve.FinalCursor(a.limit)))
    case MatMulWorker => MatMulState(MatMul.At(a.limit, a.seed, MatMul.Total(a.limit)))
    case WordCountWorker => WordCountState(WordCount.At(a.seed, a.limit, a.limit))
  }

  /** The closed-form state of job a at cursor c. */
  function AtCursor(a: Args, c: u64): State {
    match a.worker
    case Primes => PrimesState(Sieve.At(a.limit, c))
    case MatMulWorker => MatMulState(MatMul.At(a.limit, a.seed, c))
    case WordCountWorker => WordCountState(WordCount.At(a.seed, a.limit, c))
  }

  lemma OnTrackAtCursor(a: Args, s: State)
    requires OnTrack(a, s)
    ensures Cursor(s) < TWO64 && s == AtCursor(a, Cursor(s))
  {
    hide Sieve.At, MatMul.At, WordCount.At;
  }

  lemma FreshOnTrack(a: Args)
    ensures OnTrack(a, Enter(Fresh(a)))
  {
    hide Sieve.OnTrack, MatMul.OnTrack, WordCount.OnTrack;
    Sieve.FreshOnTrack(a.limit);
    MatMul.FreshOnTrack(a.limit, a.seed);
    WordCount.FreshOnTrack(a.seed, a.limit);
  }

  lemma AdvanceOnTrack(a: Args, s: State)
    requires Supported(a) && OnTrack(a, s) && !Done(s)
    ensures OnTrack(a, Advance(s))
    ensures Cursor(Advance(s)) > Cursor(s) && Units(Advance(s)) == Units(s) + Tick(s)
  {
    hide Sieve.OnTrack, MatMul.OnTrack, WordCount.OnTrack, Sieve.Advance, Sieve.Tick, MatMul.Advance, WordCount.Advance;
    match s
    case PrimesState(p) => Sieve.AdvanceOnTrack(p);
    case MatMulState(m) => MatMul.AdvanceOnTrack(m);
    case WordCountState(w) => WordCount.AdvanceOnTrack(w);
  }

  lemma DoneIsFinal(a: Args, s: State)
    requires Supported(a) && OnTrack(a, s) && Done(s)
    ensures s == Final(a)
  {
    hide Sieve.OnTrack, MatMul.OnTrack, WordCount.OnTrack, Sieve.At, MatMul.At, WordCount.At;
    match s
    case PrimesState(p) => Sieve.DoneIsFinal(p);
    case MatMulState(m) => MatMul.DoneIsFinal(m);
    case WordCountState(w) => WordCount.DoneIsFinal(w);
  }

  /** What is on the path fits the file format: at most 32 recent primes, at most 64 words. */
  lemma OnTrackFits(a: Args, s: State)
    requires OnTrack(a, s)
    ensures s.PrimesState? ==> |s.p.recent| <= Checkpoint.RECENT_CAP
    ensures s.WordCountState? ==> |s.w.counts| <= WordCount.DICT_SIZE
  {
    hide WordCount.CountsAt;
    match s
    case PrimesState(p) =>
    case MatMulState(m) =>
    case WordCountState(w) => WordCount.CountsBounded(w.seed, w.nextWord);
  }

  /** A file written on the path is read back to the same state and passes the parameter check. */
  lemma LoadRender(a: Args, s: State)
    requires OnTrack(a, s)
    ensures Load(a.worker, Render(s)) == Some(s) && Matches(a, s)
  {
    hide Sieve.OnTrack, MatMul.OnTrack, WordCount.OnTrack, Checkpoint.ReadState, MatMul.ReadState, WordCount.ReadState,
      Checkpoint.Render, MatMul.Render, WordCount.Render;
    OnTrackFits(a, s);
    match s
    case PrimesState(p) => Checkpoint.ReadRender(p);
    case MatMulState(m) => MatMul.ReadRender(m);
    case WordCountState(w) => WordCount.ReadRender(w);
  }

  /** A file of any backend in which at most four consecutive bytes changed is refused on resume. */
  lemma CorruptionRefused(a: Args, s: State, b: seq<byte>, k: nat)
    requires OnTrack(a, s)
    requires |b| == |Render(s)| && k + 4 <= |b| && b != Render(s)
    requires b[..k] == Render(s)[..k] && b[k + 4..] == Render(s)[k + 4..]
    ensures Boot(a, true, Some(b)) == Err(4)
  {
    hide OnTrack, Render, Sealed, Checkpoint.ReadState, MatMul.ReadState, WordCount.ReadState;
    RenderSealed(s);
    BurstRejected(Render(s), b, k);
    Checkpoint.UnsealedRefused(b);
    MatMul.UnsealedRefused(b);
    WordCount.UnsealedRefused(b);
  }

  /** The same job, whatever the cadence. */
  predicate SameJob(a: Args, b: Args) {
    a.worker == b.worker && a.limit == b.limit && (a.worker == Primes || a.seed == b.seed)
  }

  /** The resume check: a file on the path of job b is taken up by exactly the same job, refused with code 3 by
      another job of the same worker, and with code 4 by another worker. */
  lemma ResumeVerdict(a: Args, b: Args, s: State)
    requires OnTrack(b, s)
    ensures Boot(a, true, Some(Render(s))) ==
            if SameJob(a, b) then Ok(s) else if a.worker == b.worker then Err(3) else Err(4)
  {
    hide Render, Load, OnTrack;
    LoadRender(b, s);
    if a.worker != b.worker { OtherWorkerRefuses(a.worker, b, s); }
  }

  lemma OtherWorkerRefuses(w: Worker, b: Args, s: State)
    requires OnTrack(b, s) && w != b.worker
    ensures Load(w, Render(s)) == None
  {
    hide Sieve.OnTrack, MatMul.OnTrack, WordCount.OnTrack, Checkpoint.Render, MatMul.Render, WordCount.Render, Sealed,
      Read32, Read64;
    match s
    case PrimesState(p) => Checkpoint.RenderMagic(p);
    case MatMulState(m) => MatMul.Layout(m);
    case WordCountState(c) => WordCount.RenderStart(c);
  }

  lemma RenderSealed(s: State)
    ensures |Render(s)| >= 4 && Sealed(Render(s))
  {
    hide Sealed, Checkpoint.Render, MatMul.Render, WordCount.Render;
    match s
    case PrimesState(p) => Checkpoint.RenderSealed(p);
    case MatMulState(m) => MatMul.RenderSealed(m);
    case WordCountState(w) => WordCount.RenderSealed(w);
  }

  // ---------------------------------------------------------------- the checkpointing loop

  /** States from which the loop ends (Sieve.StopsIff). */
  predicate Runnable(s: State) {
    match s
    case PrimesState(p) => p.limit < Sieve.MAX
    case MatMulState(_) => true
    case WordCountState(_) => true
  }

  /** Iterations the loop may still make. */
  function Remaining(s: State): nat {
    match s
    case PrimesState(p) => Sieve.Remaining(p.next, p.limit)
    case MatMulState(m) => if MatMul.Done(m) then 0 else MatMul.Total(m.n) - m.nextCell
    case WordCountState(w) => if WordCount.Done(w) then 0 else w.wordsTotal - w.nextWord
  }

  lemma AdvanceRunnable(s: State)
    requires Runnable(s) && !Done(s)
    ensures Runnable(Advance(s)) && Remaining(Advance(s)) < Remaining(s)
  {
    hide MatMul.Total, MatMul.Cell, WordCount.WordAt;
    match s
    case PrimesState(p) => Sieve.NextCloser(p.next, p.limit);
    case MatMulState(m) => MatMul.UnfinishedHasCells(m); MatMul.TotalBelow(m.nextCell, MatMul.Total(m.n));
    case WordCountState(w) => MatMul.TotalBelow(w.nextWord, w.wordsTotal);
  }

  /** The states handed to the checkpoint callback by a run from s, in order: one whenever k units have
      accumulated since the last, and always a final one. */
  function Emissions(k: nat, s: State, since: nat): (e: seq<State>)
    requires Runnable(s)
    ensures e != []
    decreases Remaining(s)
  {
    hide Advance, Runnable, Remaining, Tick;
    if Done(s) then [s]
    else
      AdvanceRunnable(s);
      var n := since + Tick(s);
      if Tick(s) > 0 && n >= k then [Advance(s)] + Emissions(k, Advance(s), 0)
      else Emissions(k, Advance(s), n)
  }

  lemma OnTrackRunnable(a: Args, s: State)
    requires Supported(a) && OnTrack(a, s)
    ensures Runnable(s) && Enter(s) == s
  {
  }

  /** Every emission of a run on the path is on the path, and the last one is the result of the job. */
  lemma {:induction false} EmissionsOnTrack(a: Args, k: nat, s: State, since: nat)
    requires Supported(a) && OnTrack(a, s) && Runnable(s)
    ensures forall i :: 0 <= i < |Emissions(k, s, since)| ==> OnTrack(a, Emissions(k, s, since)[i])
    ensures Last(Emissions(k, s, since)) == Final(a)
    decreases Remaining(s)
  {
    hide Advance, Runnable, Remaining, Tick, OnTrack, Final, Supported;
    if Done(s) {
      DoneIsFinal(a, s);
    } else {
      var n := since + Tick(s);
      AdvanceOnTrack(a, s);
      AdvanceRunnable(s);
      EmissionsOnTrack(a, k, Advance(s), if Tick(s) > 0 && n >= k then 0 else n);
    }
  }

  /** Loss is bounded: from a durable state, the first file a run publishes is exactly k units further
      on, or it is the final one and at most k further. */
  lemma {:induction false} FirstEmission(a: Args, k: nat, s: State, since: nat)
    requires Supported(a) && OnTrack(a, s) && Runnable(s) && k >= 1 && since < k
    ensures var e := Emissions(k, s, since)[0];
            && Units(e) + since <= Units(s) + k
            && (Units(e) + since == Units(s) + k || e == Final(a))
    decreases Remaining(s)
  {
    hide Advance, Runnable, Remaining, OnTrack, Final, Supported;
    if Done(s) {
      DoneIsFinal(a, s);
    } else {
      var n := since + Tick(s);
      AdvanceOnTrack(a, s);
      AdvanceRunnable(s);
      if !(Tick(s) > 0 && n >= k) { FirstEmission(a, k, Advance(s), n); }
    }
  }

  /** Cadence: consecutive files of a run are exactly k units apart, except that the last, final one may
      come sooner. */
  lemma {:induction false} EmissionGaps(a: Args, k: nat, s: State, since: nat, i: nat)
    requires Supported(a) && OnTrack(a, s) && Runnable(s) && k >= 1 && since < k
    requires i + 1 < |Emissions(k, s, since)|
    ensures var e := Emissions(k, s, since);
            Units(e[i + 1]) == Units(e[i]) + k || (i + 2 == |e| && Units(e[i + 1]) <= Units(e[i]) + k)
    decreases Remaining(s)
  {
    hide Advance, Runnable, Remaining, OnTrack, Final, Supported;
    if Done(s) {
    } else {
      var n := since + Tick(s);
      AdvanceOnTrack(a, s);
      AdvanceRunnable(s);
      if Tick(s) > 0 && n >= k {
        var t := Advance(s);
        if i == 0 {
          FirstEmission(a, k, t, 0);
          OnlyLastIsFinal(a, k, t, 0);
        } else {
          EmissionGaps(a, k, t, 0, i - 1);
        }
      } else {
        EmissionGaps(a, k, Advance(s), n, i);
      }
    }
  }

  /** If the first file is short of a full cadence, it is the only one. */
  lemma {:induction false} OnlyLastIsFinal(a: Args, k: nat, s: State, since: nat)
    requires Supported(a) && OnTrack(a, s) && Runnable(s) && k >= 1 && since < k
    ensures var e := Emissions(k, s, since); Units(e[0]) + since == Units(s) + k || |e| == 1
    decreases Remaining(s)
  {
    hide Advance, Runnable, Remaining, OnTrack, Final, Supported;
    if Done(s) {
    } else {
      var n := since + Tick(s);
      AdvanceOnTrack(a, s);
      AdvanceRunnable(s);
      TickAtMostOne(s);
      if !(Tick(s) > 0 && n >= k) { OnlyLastIsFinal(a, k, Advance(s), n); }
    }
  }

  lemma TickAtMostOne(s: State)
    ensures Tick(s) <= 1
  {
  }

  /** Any file a run publishes is final or at least k units past where the run began. */
  lemma {:induction false} EmissionProgress(a: Args, k: nat, s: State, since: nat, i: nat)
    requires Supported(a) && OnTrack(a, s) && Runnable(s) && k >= 1 && since < k
    requires i < |Emissions(k, s, since)|
    ensures Emissions(k, s, since)[i] == Final(a) || Units(Emissions(k, s, since)[i]) + since >= Units(s) + k
    decreases Remaining(s)
  {
    hide Advance, Runnable, Remaining, OnTrack, Final, Supported;
    if Done(s) {
      DoneIsFinal(a, s);
    } else {
      var n := since + Tick(s);
      AdvanceOnTrack(a, s);
      AdvanceRunnable(s);
      if Tick(s) > 0 && n >= k {
        if i > 0 { EmissionProgress(a, k, Advance(s), 0, i - 1); }
      } else {
        EmissionProgress(a, k, Advance(s), n, i);
      }
    }
  }

  // ---------------------------------------------------------------- crash and resume

  /** A crash history: each incarnation runs with its own cadence, the first from scratch and every other
      one from what a resume makes of the previous file, and leaves behind one of the files it published. */
  ghost predicate History(a: Args, cadences: seq<nat>, files: seq<State>) {
    && |cadences| == |files|
    && forall i :: 0 <= i < |files| ==> Published(cadences[i], StartOf(a, files, i), files[i])
  }

  /** The state incarnation i enters its loop with, or its exit code. */
  ghost function StartOf(a: Args, files: seq<State>, i: nat): Result<State, nat>
    requires i <= |files|
  {
    if i == 0 then Ok(Enter(Fresh(a)))
    else match Boot(a, true, Some(Render(files[i - 1])))
      case Ok(s) => Ok(Enter(s))
      case Err(code) => Err(code)
  }

  /** An incarnation that starts and whose loop ends leaves one of its snapshots. */
  ghost predicate Published(k: nat, start: Result<State, nat>, file: State) {
    start.Ok? && Runnable(start.value) ==> file in Emissions(k, start.value, 0)
  }

  /** Resuming from the file of an on-track state continues with that state. */
  lemma ResumeExact(a: Args, s: State)
    requires Supported(a) && OnTrack(a, s)
    ensures Boot(a, true, Some(Render(s))) == Ok(s) && Enter(s) == s && Runnable(s)
  {
    hide OnTrack, Runnable, Enter, Supported, Load, Matches, Render;
    LoadRender(a, s);
    OnTrackRunnable(a, s);
  }

  /** Every incarnation starts on the path, with the very state of the previous file, by induction over
      the incarnations before it. */
  lemma {:induction false} HistoryStart(a: Args, cadences: seq<nat>, files: seq<State>, i: nat)
    requires Supported(a) && History(a, cadences, files) && i <= |files|
    ensures StartOf(a, files, i) == Ok(if i == 0 then Enter(Fresh(a)) else files[i - 1])
    ensures OnTrack(a, StartOf(a, files, i).value) && Runnable(StartOf(a, files, i).value)
  {
    hide OnTrack, Runnable, Emissions, Supported, Enter, Fresh, Boot, Render;
    if i == 0 {
      FreshOnTrack(a);
      OnTrackRunnable(a, Enter(Fresh(a)));
    } else {
      HistoryStart(a, cadences, files, i - 1);
      var from := StartOf(a, files, i - 1);
      assert Published(cadences[i - 1], from, files[i - 1]);
      EmissionsOnTrack(a, cadences[i - 1], from.value, 0);
      ResumeExact(a, files[i - 1]);
    }
  }

  /** Determinism across crashes: however a job was interrupted and whatever cadences were used, resuming
      from the bytes of any file it left passes the parameter check and ends in the one final state. */
  lemma ResumeDeterministic(a: Args, cadences: seq<nat>, files: seq<State>, i: nat, k: nat)
    requires Supported(a) && History(a, cadences, files) && i < |files|
    ensures Boot(a, true, Some(Render(files[i]))) == Ok(files[i])
    ensures Runnable(Enter(files[i])) && Last(Emissions(k, Enter(files[i]), 0)) == Final(a)
    ensures Runnable(Enter(Fresh(a))) && Last(Emissions(k, Enter(Fresh(a)), 0)) == Final(a)
  {
    hide OnTrack, Runnable, Emissions, History, Enter, Final, Supported, Boot, Render, StartOf;
    HistoryStart(a, cadences, files, i + 1);
    ResumeExact(a, files[i]);
    EmissionsOnTrack(a, k, files[i], 0);
    FreshOnTrack(a);
    OnTrackRunnable(a, Enter(Fresh(a)));
    EmissionsOnTrack(a, k, Enter(Fresh(a)), 0);
  }

  lemma {:induction false} HistoryProgress(a: Args, cadences: seq<nat>, files: seq<State>, k: nat, n: nat)
    requires Supported(a) && k >= 1 && n < |files| && History(a, cadences, files)
    requires forall i :: 0 <= i < |cadences| ==> cadences[i] == k
    ensures files[n] == Final(a) || Units(files[n]) >= (n + 1) * k
    decreases n
  {
    hide OnTrack, Runnable, Emissions, Enter, Final, Supported, Units, Fresh, StartOf;
    HistoryStart(a, cadences, files, n);
    var from := StartOf(a, files, n);
    assert Published(cadences[n], from, files[n]);
    var e := Emissions(k, from.value, 0);
    var i :| 0 <= i < |e| && e[i] == files[n];
    EmissionProgress(a, k, from.value, 0, i);
    if n == 0 {
    } else {
      HistoryProgress(a, cadences, files, k, n - 1);
      assert (n + 1) * k == n * k + k;
      if files[n - 1] == Final(a) { FinalStays(a, k, i); }
    }
  }

  lemma FinalStays(a: Args, k: nat, i: nat)
    requires Supported(a) && Runnable(Final(a)) && i < |Emissions(k, Final(a), 0)|
    ensures Emissions(k, Final(a), 0)[i] == Final(a)
  {
    hide OnTrack, Runnable, Final, Done, Supported;
    FinalDone(a);
  }

  lemma FinalDone(a: Args)
    requires Supported(a)
    ensures Done(Final(a)) && OnTrack(a, Final(a))
  {
    hide MatMul.Total, WordCount.CountsAt, MatMul.SumCells;
    if a.worker == Primes { Sieve.FinalMeaning(a.limit); }
  }

  /** Restart bound: if every incarnation publishes at least one file, then as soon as the number of incarnations
      times k exceeds the units of the whole job, the file on disk is the final one. */
  lemma RestartBound(a: Args, cadences: seq<nat>, files: seq<State>, k: nat)
    requires Supported(a) && k >= 1 && History(a, cadences, files)
    requires forall i :: 0 <= i < |cadences| ==> cadences[i] == k
    requires |files| * k > Units(Final(a))
    ensures Last(files) == Final(a)
  {
    hide OnTrack, Runnable, Emissions, Enter, Final, Supported, History, StartOf, Units, Fresh;
    HistoryProgress(a, cadences, files, k, |files| - 1);
    HistoryStart(a, cadences, files, |files|);
    UnitsAtMostFinal(a, Last(files));
  }

  lemma UnitsAtMostFinal(a: Args, s: State)
    requires Supported(a) && OnTrack(a, s)
    ensures Units(s) <= Units(Final(a))
  {
    hide MatMul.Total, WordCount.CountsAt, MatMul.SumCells;
    match s
    case PrimesState(p) => Sieve.CountMonotone(p.next, Sieve.FinalCursor(a.limit));
    case MatMulState(_) =>
    case WordCountState(_) =>
  }
}

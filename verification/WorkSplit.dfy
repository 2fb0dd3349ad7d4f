/** The concurrent work distributor (utils/concurrency.go) as atomic steps of its goroutines, in any
    interleaving. */
module WorkSplit {
  import opened Blocks

  /** What one goroutine is doing. */
  datatype Worker =
    | Unborn
    /** `init` reported an error, so it was not started. */
    | Stillborn
    /** At the top of its loop. */
    | Idle
    /** Inside `do` for an index. */
    | Busy(index: nat)
    /** `do` reported an error and the error callback was called. */
    | Failing(index: nat)
    /** Returned, because the work ran out or after an error. */
    | Gone(ranOut: bool)

  /** The size of the work, and whether there is an error callback. */
  datatype Job = Job(workSize: nat, reports: bool)

  /** The shared counter and flag, the goroutines, how many of them the launching loop has dealt with,
      and what happened so far: to whom the indices were handed in turn, which of them were completed
      how often, and which failed. */
  datatype State = State(
    counter: nat,
    failed: bool,
    workers: seq<Worker>,
    launched: nat,
    handed: seq<nat>,
    completed: multiset<nat>,
    errors: set<nat>)

  /** The atomic steps. */
  datatype Event =
    /** The launching loop calls `init` for the next goroutine and, if that succeeds, starts it. */
    | Launch(initFails: bool)
    /** The counter is incremented and the new value looked at. */
    | Fetch(worker: nat)
    /** `do` returns. */
    | Return(worker: nat, fails: bool)
    /** The failed flag is set. */
    | Flag(worker: nat)

  /** How many goroutines are used: a count that is not positive is taken relative to the number of
      processors, and there are never more than there is work. */
  function Routines(requested: int, processors: int, workSize: nat): (r: nat)
    ensures r <= workSize && (workSize > 0 ==> r > 0)
    ensures r < workSize ==> if requested > 0 then r == requested else r >= 4 && r >= processors - requested
    ensures r < workSize && requested <= 0 ==> r == 4 || r == processors - requested
  {
    var wanted := if requested > 0 then requested
                  else if processors - requested > 4 then processors - requested else 4;
    if workSize < wanted then workSize else wanted
  }

  function Start(routines: nat): State {
    State(0, false, seq(routines, _ => Unborn), 0, [], multiset{}, {})
  }

  /** One step, if it is possible. */
  function Step(job: Job, s: State, e: Event): Option<State> {
    match e
    case Launch(initFails) =>
      if s.launched >= |s.workers| then None
      else if initFails then
        Some(s.(failed := true, launched := s.launched + 1, workers := s.workers[s.launched := Stillborn]))
      else Some(s.(launched := s.launched + 1, workers := s.workers[s.launched := Idle]))
    case Fetch(w) =>
      if w >= |s.workers| || s.workers[w] != Idle then None
      else
        var workIndex := (s.counter + 1) % TWO64;
        if workIndex > job.workSize then Some(s.(counter := workIndex, workers := s.workers[w := Gone(true)]))
        else
          Some(s.(counter := workIndex, workers := s.workers[w := Busy(Sub64(workIndex, 1))], handed := s.handed + [w]))
    case Return(w, fails) =>
      if w >= |s.workers| || !s.workers[w].Busy? then None
      else
        var i := s.workers[w].index;
        if !fails then Some(s.(workers := s.workers[w := Idle], completed := s.completed + multiset{i}))
        else
          var next := if job.reports then Failing(i) else Gone(false);
          Some(s.(workers := s.workers[w := next], errors := s.errors + {i}))
    case Flag(w) =>
      if w >= |s.workers| || !s.workers[w].Failing? then None
      else Some(s.(workers := s.workers[w := Gone(false)], failed := true))
  }

  /** Any number of steps, one after another. */
  function Run(job: Job, s: State, events: seq<Event>): Option<State> {
    if events == [] then Some(s)
    else
      match Run(job, s, events[..|events| - 1])
      case None => None
      case Some(t) => Step(job, t, events[|events| - 1])
  }

  /** `wg.Wait` returns. The result is then the negated flag. */
  predicate Finished(s: State) {
    s.launched == |s.workers| && forall w :: 0 <= w < |s.workers| ==> s.workers[w].Gone? || s.workers[w].Stillborn?
  }

  function Result(s: State): bool { !s.failed }

  // ---------------------------------------------------------------- the invariant

  /** How many goroutines found the work used up. */
  function RanOut(workers: seq<Worker>): (n: nat)
    ensures n <= |workers|
  {
    if workers == [] then 0
    else RanOut(workers[..|workers| - 1]) + (if workers[|workers| - 1] == Gone(true) then 1 else 0)
  }

  lemma {:induction false} RanOutUpdate(workers: seq<Worker>, w: nat, x: Worker)
    requires w < |workers| && workers[w] != Gone(true)
    ensures RanOut(workers[w := x]) == RanOut(workers) + (if x == Gone(true) then 1 else 0)
    ensures RanOut(workers) < |workers|
  {
    var n := |workers| - 1;
    if w < n {
      assert workers[w := x][..n] == workers[..n][w := x];
      RanOutUpdate(workers[..n], w, x);
    } else {
      assert workers[w := x][..n] == workers[..n];
    }
  }

  /** What the state of one goroutine says about the rest. */
  predicate WorkerOk(job: Job, s: State, w: nat)
    requires w < |s.workers|
  {
    match s.workers[w]
    case Unborn => w >= s.launched
    case Stillborn => w < s.launched && s.failed
    case Idle => w < s.launched
    case Busy(i) => w < s.launched && i < |s.handed| && s.handed[i] == w && s.completed[i] == 0 && i !in s.errors
    case Failing(i) => w < s.launched && job.reports && i in s.errors
    case Gone(ranOut) => w < s.launched && if ranOut then s.counter > job.workSize else s.errors != {}
  }

  /** Where an index that was handed out is now. */
  predicate IndexOk(job: Job, s: State, i: nat)
    requires i < |s.handed|
  {
    && s.handed[i] < |s.workers|
    && s.completed[i] == (if i in s.errors || s.workers[s.handed[i]] == Busy(i) then 0 else 1)
    && (i in s.errors && job.reports ==> Reported(s, i))
  }

  /** The flag is set, or about to be. */
  predicate Reported(s: State, i: nat) {
    s.failed || exists w :: 0 <= w < |s.workers| && s.workers[w] == Failing(i)
  }

  /** The counter cannot wrap. */
  ghost predicate Sized(job: Job, s: State) {
    job.workSize + |s.workers| < TWO64
  }

  ghost predicate Inv(job: Job, s: State) {
    && Sized(job, s)
    && s.launched <= |s.workers|
    && s.counter <= job.workSize + RanOut(s.workers)
    && |s.handed| == (if s.counter < job.workSize then s.counter else job.workSize)
    && (forall w :: 0 <= w < |s.workers| ==> WorkerOk(job, s, w))
    && (forall i :: 0 <= i < |s.handed| ==> IndexOk(job, s, i))
    && (forall i :: i in s.completed || i in s.errors ==> 0 <= i < |s.handed|)
  }

  lemma {:induction false} NoneRanOut(workers: seq<Worker>)
    requires forall w :: 0 <= w < |workers| ==> workers[w] == Unborn
    ensures RanOut(workers) == 0
  {
    if workers != [] {
      NoneRanOut(workers[..|workers| - 1]);
    }
  }

  lemma StartOk(job: Job, routines: nat)
    requires job.workSize + routines < TWO64
    ensures Inv(job, Start(routines))
  {
    NoneRanOut(Start(routines).workers);
  }

  /** When one goroutine takes a step, what the others fail at stays reported. */
  lemma StillReported(s: State, t: State, w: nat, i: nat)
    requires w < |s.workers| == |t.workers| && (s.workers[w].Failing? ==> t.failed) && (s.failed ==> t.failed)
    requires forall v :: 0 <= v < |s.workers| && v != w ==> t.workers[v] == s.workers[v]
    ensures Reported(s, i) ==> Reported(t, i)
  {
    if Reported(s, i) && !t.failed {
      var v :| 0 <= v < |s.workers| && s.workers[v] == Failing(i);
      assert t.workers[v] == Failing(i);
    }
  }

  lemma LaunchOk(job: Job, s: State, initFails: bool)
    requires Inv(job, s) && Step(job, s, Launch(initFails)).Some?
    ensures Inv(job, Step(job, s, Launch(initFails)).value)
  {
    var t, w := Step(job, s, Launch(initFails)).value, s.launched;
    assert WorkerOk(job, s, w);
    RanOutUpdate(s.workers, w, t.workers[w]);
    forall v | 0 <= v < |t.workers| ensures WorkerOk(job, t, v) {
      assert WorkerOk(job, s, v);
    }
    forall i | 0 <= i < |t.handed| ensures IndexOk(job, t, i) {
      assert IndexOk(job, s, i);
      StillReported(s, t, w, i);
    }
  }

  lemma CounterFits(job: Job, s: State, w: nat)
    requires Inv(job, s) && w < |s.workers| && s.workers[w] == Idle
    ensures (s.counter + 1) % TWO64 == s.counter + 1
    ensures RanOut(s.workers[w := Gone(true)]) == RanOut(s.workers) + 1
    ensures forall i :: RanOut(s.workers[w := Busy(i)]) == RanOut(s.workers)
  {
    RanOutUpdate(s.workers, w, Gone(true));
    forall i ensures RanOut(s.workers[w := Busy(i)]) == RanOut(s.workers) {
      RanOutUpdate(s.workers, w, Busy(i));
    }
  }

  lemma RunsOutOk(job: Job, s: State, w: nat)
    requires Inv(job, s) && w < |s.workers| && s.workers[w] == Idle && s.counter + 1 > job.workSize
    ensures Inv(job, s.(counter := s.counter + 1, workers := s.workers[w := Gone(true)]))
  {
    var t := s.(counter := s.counter + 1, workers := s.workers[w := Gone(true)]);
    CounterFits(job, s, w);
    forall v | 0 <= v < |t.workers| ensures WorkerOk(job, t, v) {
      assert WorkerOk(job, s, v);
    }
    forall i | 0 <= i < |t.handed| ensures IndexOk(job, t, i) {
      assert IndexOk(job, s, i);
      StillReported(s, t, w, i);
    }
  }

  lemma TakesIndexOk(job: Job, s: State, w: nat)
    requires Inv(job, s) && w < |s.workers| && s.workers[w] == Idle && s.counter + 1 <= job.workSize
    ensures Inv(job, s.(counter := s.counter + 1, workers := s.workers[w := Busy(s.counter)], handed := s.handed + [w]))
  {
    var t := s.(counter := s.counter + 1, workers := s.workers[w := Busy(s.counter)], handed := s.handed + [w]);
    CounterFits(job, s, w);
    forall v | 0 <= v < |t.workers| ensures WorkerOk(job, t, v) {
      assert WorkerOk(job, s, v);
    }
    forall i | 0 <= i < |t.handed| ensures IndexOk(job, t, i) {
      if i < |s.handed| {
        assert IndexOk(job, s, i);
        StillReported(s, t, w, i);
      }
    }
  }

  lemma FetchOk(job: Job, s: State, w: nat)
    requires Inv(job, s) && Step(job, s, Fetch(w)).Some?
    ensures Inv(job, Step(job, s, Fetch(w)).value)
  {
    CounterFits(job, s, w);
    if s.counter + 1 > job.workSize {
      RunsOutOk(job, s, w);
    } else {
      TakesIndexOk(job, s, w);
    }
  }

  lemma ReturnOk(job: Job, s: State, w: nat, fails: bool)
    requires Inv(job, s) && Step(job, s, Return(w, fails)).Some?
    ensures Inv(job, Step(job, s, Return(w, fails)).value)
  {
    var t, k := Step(job, s, Return(w, fails)).value, s.workers[w].index;
    assert WorkerOk(job, s, w);
    RanOutUpdate(s.workers, w, t.workers[w]);
    forall v | 0 <= v < |t.workers| ensures WorkerOk(job, t, v) {
      assert WorkerOk(job, s, v);
    }
    forall i | 0 <= i < |t.handed| ensures IndexOk(job, t, i) {
      assert IndexOk(job, s, i);
      StillReported(s, t, w, i);
      if i == k && fails && job.reports {
        assert t.workers[w] == Failing(k);
      }
    }
  }

  lemma FlagOk(job: Job, s: State, w: nat)
    requires Inv(job, s) && Step(job, s, Flag(w)).Some?
    ensures Inv(job, Step(job, s, Flag(w)).value)
  {
    var t := Step(job, s, Flag(w)).value;
    assert WorkerOk(job, s, w);
    RanOutUpdate(s.workers, w, t.workers[w]);
    forall v | 0 <= v < |t.workers| ensures WorkerOk(job, t, v) {
      assert WorkerOk(job, s, v);
    }
    forall i | 0 <= i < |t.handed| ensures IndexOk(job, t, i) {
      assert IndexOk(job, s, i);
      StillReported(s, t, w, i);
    }
  }

  lemma {:induction false} RunOk(job: Job, s: State, events: seq<Event>)
    requires Inv(job, s) && Run(job, s, events).Some?
    ensures Inv(job, Run(job, s, events).value) && |Run(job, s, events).value.workers| == |s.workers|
  {
    if events != [] {
      var t := Run(job, s, events[..|events| - 1]).value;
      RunOk(job, s, events[..|events| - 1]);
      match events[|events| - 1]
      case Launch(initFails) => LaunchOk(job, t, initFails);
      case Fetch(w) => FetchOk(job, t, w);
      case Return(w, fails) => ReturnOk(job, t, w, fails);
      case Flag(w) => FlagOk(job, t, w);
    }
  }

  // ---------------------------------------------------------------- what every interleaving gives

  /** The indices that goroutines were given, in order. */
  function Fetched(job: Job, s: State, events: seq<Event>): seq<(nat, nat)> {
    if events == [] then []
    else
      var front, e := events[..|events| - 1], events[|events| - 1];
      var before := Fetched(job, s, front);
      match Run(job, s, front)
      case None => before
      case Some(t) =>
        match Step(job, t, e)
        case None => before
        case Some(r) =>
          if e.Fetch? && r.workers[e.worker].Busy? then before + [(r.workers[e.worker].index, e.worker)] else before
  }

  ghost predicate AllOnce(job: Job, s: State) {
    forall i :: 0 <= i < job.workSize ==> s.completed[i] == 1
  }

  lemma HandsOutNext(job: Job, s: State, e: Event)
    requires Inv(job, s) && Step(job, s, e).Some?
    ensures var t := Step(job, s, e).value;
      if e.Fetch? && t.workers[e.worker].Busy?
      then t.workers[e.worker].index == |s.handed| && |t.handed| == |s.handed| + 1
      else t.handed == s.handed
  {
    if e.Fetch? {
      RanOutUpdate(s.workers, e.worker, Gone(true));
    }
  }

  /** In no interleaving is an index handed out twice: the k-th hand-out is that of index k. */
  lemma {:induction false} EachHandedOnce(job: Job, routines: nat, events: seq<Event>)
    requires job.workSize + routines < TWO64 && Run(job, Start(routines), events).Some?
    ensures var given := Fetched(job, Start(routines), events);
      && |given| == |Run(job, Start(routines), events).value.handed|
      && forall k :: 0 <= k < |given| ==> given[k].0 == k
  {
    if events != [] {
      var front, e := events[..|events| - 1], events[|events| - 1];
      StartOk(job, routines);
      RunOk(job, Start(routines), front);
      EachHandedOnce(job, routines, front);
      HandsOutNext(job, Run(job, Start(routines), front).value, e);
    }
  }

  /** When all goroutines are gone, everything was completed exactly once unless something failed
      or none was ever started. */
  lemma FinishedWork(job: Job, s: State)
    requires Inv(job, s) && Finished(s) && (job.workSize > 0 ==> |s.workers| > 0)
    ensures Result(s) ==> (AllOnce(job, s) <==> s.errors == {})
    ensures Result(s) && job.reports ==> s.errors == {}
  {
    if Result(s) && s.errors == {} && job.workSize > 0 {
      assert WorkerOk(job, s, 0);
      forall i | 0 <= i < job.workSize ensures s.completed[i] == 1 {
        assert IndexOk(job, s, i);
      }
    }
    if s.errors != {} {
      var i :| i in s.errors;
      assert IndexOk(job, s, i);
    }
  }

  /** With an error callback, a true result means that every index was completed exactly once. */
  lemma TrueMeansAllOnce(job: Job, requested: int, processors: int, events: seq<Event>)
    requires job.workSize + Routines(requested, processors, job.workSize) < TWO64 && job.reports
    requires Run(job, Start(Routines(requested, processors, job.workSize)), events).Some?
    requires Finished(Run(job, Start(Routines(requested, processors, job.workSize)), events).value)
    ensures var s := Run(job, Start(Routines(requested, processors, job.workSize)), events).value;
      Result(s) ==> AllOnce(job, s) && s.errors == {}
  {
    var n := Routines(requested, processors, job.workSize);
    StartOk(job, n);
    RunOk(job, Start(n), events);
    FinishedWork(job, Run(job, Start(n), events).value);
  }

  // ---------------------------------------------------------------- without an error callback

  lemma RunAppend(job: Job, s: State, events: seq<Event>, e: Event)
    requires Run(job, s, events).Some?
    ensures Run(job, s, events + [e]) == Step(job, Run(job, s, events).value, e)
  {
    assert (events + [e])[..|events|] == events;
  }

  /** Starts `k` goroutines. */
  function Launches(k: nat): seq<Event> {
    if k == 0 then [] else Launches(k - 1) + [Launch(false)]
  }

  /** Starts `n` goroutines; then the first `k` of them fetch an index each and fail at it. */
  function Failures(n: nat, k: nat): seq<Event> {
    if k == 0 then Launches(n) else Failures(n, k - 1) + [Fetch(k - 1)] + [Return(k - 1, true)]
  }

  /** The first `k` goroutines are in one state, the others in another. */
  ghost predicate Divided(workers: seq<Worker>, n: nat, k: nat, first: Worker, others: Worker) {
    |workers| == n && forall w :: 0 <= w < n ==> workers[w] == if w < k then first else others
  }

  lemma {:induction false} LaunchesRun(job: Job, n: nat, k: nat)
    requires k <= n
    ensures var r := Run(job, Start(n), Launches(k));
      r.Some? && r.value == Start(n).(launched := k, workers := r.value.workers)
        && Divided(r.value.workers, n, k, Idle, Unborn)
  {
    if k > 0 {
      LaunchesRun(job, n, k - 1);
      RunAppend(job, Start(n), Launches(k - 1), Launch(false));
    }
  }

  /** After `k` failures nothing is completed and nothing is flagged. */
  ghost predicate Unnoticed(s: State, n: nat, k: nat) {
    s.counter == k && !s.failed && s.launched == n && s.completed == multiset{}
      && Divided(s.workers, n, k, Gone(false), Idle)
  }

  lemma FailsUnnoticed(job: Job, s: State, n: nat, k: nat)
    requires !job.reports && k < n <= job.workSize < TWO64 && Unnoticed(s, n, k)
    ensures var f := Step(job, s, Fetch(k));
      f.Some? && var r := Step(job, f.value, Return(k, true)); r.Some? && Unnoticed(r.value, n, k + 1)
  {
  }

  lemma {:induction false} FailuresRun(job: Job, n: nat, k: nat)
    requires !job.reports && k <= n <= job.workSize < TWO64
    ensures var r := Run(job, Start(n), Failures(n, k)); r.Some? && Unnoticed(r.value, n, k)
  {
    if k == 0 {
      LaunchesRun(job, n, n);
    } else {
      FailuresRun(job, n, k - 1);
      var before := Failures(n, k - 1);
      FailsUnnoticed(job, Run(job, Start(n), before).value, n, k - 1);
      RunAppend(job, Start(n), before, Fetch(k - 1));
      RunAppend(job, Start(n), before + [Fetch(k - 1)], Return(k - 1, true));
    }
  }

  /** Errors go unnoticed: every goroutine fails at its first index, the result is true, and nothing is done. */
  lemma SilentFailure(job: Job, n: nat)
    requires !job.reports && 0 < n <= job.workSize < TWO64
    ensures var r := Run(job, Start(n), Failures(n, n));
      r.Some? && Finished(r.value) && Result(r.value) && !AllOnce(job, r.value)
  {
    FailuresRun(job, n, n);
    assert Run(job, Start(n), Failures(n, n)).value.completed[0] == 0;
  }

  /** Every finished run with a true result has completed each index exactly once. */
  ghost predicate TrueMeansDone(job: Job, n: nat) {
    forall events :: TrueRun(job, n, events) ==> AllOnce(job, Run(job, Start(n), events).value)
  }

  ghost predicate TrueRun(job: Job, n: nat, events: seq<Event>) {
    var r := Run(job, Start(n), events); r.Some? && Finished(r.value) && Result(r.value)
  }

  /** A true result can be relied on exactly if there is an error callback, or nothing to do. */
  lemma TrueMeansDoneIff(job: Job, requested: int, processors: int)
    requires job.workSize + Routines(requested, processors, job.workSize) < TWO64
    ensures TrueMeansDone(job, Routines(requested, processors, job.workSize)) <==> job.reports || job.workSize == 0
  {
    var n := Routines(requested, processors, job.workSize);
    if job.reports {
      forall events | TrueRun(job, n, events) ensures AllOnce(job, Run(job, Start(n), events).value) {
        TrueMeansAllOnce(job, requested, processors, events);
      }
    } else if job.workSize > 0 {
      SilentFailure(job, n);
      assert TrueRun(job, n, Failures(n, n));
    }
  }
}

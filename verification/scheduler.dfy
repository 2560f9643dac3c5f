/** The background scheduler: six periodic jobs, each run once at start
    and then on every tick of its own ticker until the context is done. */
module Scheduler {
  import opened Wrappers
  import opened ServiceErrors
  import opened Strconv
  import opened Config

  // ---------------------------------------------------------------------
  // The error a job hands back

  /** A Go `error` interface value as a job closure returns it: the nil
      interface, or an interface holding a *ServiceError pointer, which may
      itself be nil. */
  datatype ErrorValue = NilError | ServicePtr(ptr: Option<ServiceError>)

  /** `err != nil` on the interface: only the nil interface is nil; an
      interface holding a nil pointer is not. */
  predicate IsNil(e: ErrorValue)
  {
    e == NilError
  }

  /** What `%v` prints for the error.  Calling Error() through a nil
      pointer panics; fmt recovers and prints "<nil>". */
  function Render(e: ErrorValue): string
  {
    match e
    case NilError => "<nil>"
    case ServicePtr(None) => "<nil>"
    case ServicePtr(Some(se)) => Error(se)
  }

  /** `_, err := svc(ctx); return err` with `err` a *ServiceError, as
      written: the result is never the nil interface. */
  function AsError(p: Option<ServiceError>): (r: ErrorValue)
    ensures !IsNil(r)
    ensures Render(r) == (if p.Some? then Error(p.value) else "<nil>")
  {
    ServicePtr(p)
  }

  /** The conversion the closures evidently intend: a nil *ServiceError
      becomes the nil interface. */
  function AsErrorChecked(p: Option<ServiceError>): (r: ErrorValue)
    ensures IsNil(r) <==> p.None?
    ensures p.Some? ==> Render(r) == Error(p.value)
  {
    if p.None? then NilError else ServicePtr(p)
  }

  // ---------------------------------------------------------------------
  // backgroundTask

  /** What wakes the task loop: a tick of its ticker or the end of the
      context. */
  datatype Event = Tick | Done

  /** How a task loop ends within the events given: NewTicker panicked on
      a non-positive interval, the context ended, or it is still waiting
      for the next event. */
  datatype Ending = Panicked | Stopped | Waiting

  /** The number of ticks before the first Done. */
  function TicksBeforeDone(events: seq<Event>): (r: nat)
    ensures r <= |events|
    ensures r < |events| ==> events[r] == Done
    ensures forall i :: 0 <= i < r ==> events[i] == Tick
  {
    if |events| == 0 || events[0] == Done then 0
    else
      var rest := TicksBeforeDone(events[1..]);
      assert events[0] == Tick;
      assert forall i :: 1 <= i < 1 + rest ==> events[i] == events[1..][i - 1];
      1 + rest
  }

  /** The log line for a failed run. */
  function LogLine(name: string, e: ErrorValue): string
  {
    name + " err: " + Render(e)
  }

  /** The log of the first `n` runs, whose outcomes `task` gives. */
  function Log(name: string, task: nat -> ErrorValue, n: nat): seq<string>
  {
    if n == 0 then []
    else Log(name, task, n - 1) + (if IsNil(task(n - 1)) then [] else [LogLine(name, task(n - 1))])
  }

  /** backgroundTask.  `task(k)` is the outcome of the k-th run.  Returns
      how many runs happened, what was logged and how the loop ended. */
  method BackgroundTask(name: string, interval: int, events: seq<Event>, task: nat -> ErrorValue)
    returns (runs: nat, log: seq<string>, ending: Ending)
    ensures interval <= 0 ==> ending == Panicked && runs == 0 && log == []
    ensures interval > 0 ==> runs == 1 + TicksBeforeDone(events) && log == Log(name, task, runs)
    ensures interval > 0 ==> (ending == Stopped <==> Done in events) && ending != Panicked
  {
    if interval <= 0 {
      return 0, [], Panicked;
    }
    runs, log := 0, [];
    var err := task(runs);
    runs := runs + 1;
    if !IsNil(err) {
      log := log + [LogLine(name, err)];
    }
    var i := 0;
    while i < |events|
      invariant 0 <= i <= TicksBeforeDone(events)
      invariant runs == 1 + i && log == Log(name, task, runs)
      decreases |events| - i
    {
      if events[i] == Done {
        return runs, log, Stopped;
      }
      err := task(runs);
      runs := runs + 1;
      if !IsNil(err) {
        log := log + [LogLine(name, err)];
      }
      i := i + 1;
      TicksBeforeDoneAt(events, i);
    }
    ending := Waiting;
  }

  /** TicksBeforeDone counts ticks up to the first Done: if none of the
      first `i` events is Done, at least `i` ticks precede it. */
  lemma {:induction false} TicksBeforeDoneAt(events: seq<Event>, i: nat)
    requires i <= |events|
    requires forall k :: 0 <= k < i ==> events[k] == Tick
    ensures i <= TicksBeforeDone(events)
  {
    if i > 0 {
      TicksBeforeDoneAt(events[1..], i - 1);
    }
  }

  /** How many of the first `n` runs failed. */
  function Failures(p: nat -> Option<ServiceError>, n: nat): (r: nat)
    ensures r <= n
  {
    if n == 0 then 0 else Failures(p, n - 1) + (if p(n - 1).Some? then 1 else 0)
  }

  /** As written, every run is logged, successful or not: a job that never
      fails logs "<name> err: <nil>" once per run. */
  lemma {:induction false} EveryRunIsLogged(name: string, p: nat -> Option<ServiceError>,
                                            task: nat -> ErrorValue, n: nat)
    requires forall k :: task(k) == AsError(p(k))
    ensures |Log(name, task, n)| == n
    ensures forall k :: 0 <= k < n && p(k).None? ==> Log(name, task, n)[k] == name + " err: <nil>"
  {
    if n > 0 {
      EveryRunIsLogged(name, p, task, n - 1);
      assert !IsNil(task(n - 1));
    }
  }

  /** With the intended conversion, exactly the failed runs are logged. */
  lemma {:induction false} OnlyFailuresLogged(name: string, p: nat -> Option<ServiceError>,
                                              task: nat -> ErrorValue, n: nat)
    requires forall k :: task(k) == AsErrorChecked(p(k))
    ensures |Log(name, task, n)| == Failures(p, n)
  {
    if n > 0 {
      OnlyFailuresLogged(name, p, task, n - 1);
    }
  }

  // ---------------------------------------------------------------------
  // startBackgroundTasks

  /** The job a registration runs. */
  datatype Job = StoreOsdr | StoreIss | Refresh(sources: seq<string>)

  /** One `go backgroundTask(ctx, name, interval, job)`. */
  datatype Registration = Registration(name: string, interval: int, job: Job)

  /** time.Second in nanoseconds. */
  const Second: int := 1_000_000_000

  /** An int64 result of Go arithmetic: two's-complement wrap-around. */
  function Int64(x: int): (r: int)
    ensures -(Int64Bound as int) <= r < Int64Bound
    ensures (r - x) % 0x1_0000_0000_0000_0000 == 0
    ensures -(Int64Bound as int) <= x < Int64Bound ==> r == x
  {
    (x + Int64Bound) % 0x1_0000_0000_0000_0000 - Int64Bound
  }

  /** `time.Duration(seconds) * time.Second` for a uint64 count. */
  function Interval(seconds: nat): (r: int)
    ensures seconds * Second < Int64Bound ==> r == seconds * Second
    ensures -(Int64Bound as int) <= r < Int64Bound
  {
    Int64(Int64(seconds) * Second)
  }

  /** startBackgroundTasks: the six jobs, each under its own name and
      ticking at the interval its configuration field sets. */
  function StartBackgroundTasks(cfg: RetryConfig): (r: seq<Registration>)
    ensures |r| == 6
    ensures forall j, k :: 0 <= j < k < |r| ==> r[j].name != r[k].name
    ensures r[0].name == "OSDR" && r[0].interval == Interval(cfg.everyOsdr) && r[0].job == StoreOsdr
    ensures r[1].name == "ISS" && r[1].interval == Interval(cfg.everyIss) && r[1].job == StoreIss
    ensures r[2].name == "APOD" && r[2].interval == Interval(cfg.everyApod) && r[2].job == Refresh(["apod"])
    ensures r[3].name == "NEO" && r[3].interval == Interval(cfg.everyNeo) && r[3].job == Refresh(["neo"])
    ensures r[4].name == "DONKI" && r[4].interval == Interval(cfg.everyDonki) && r[4].job == Refresh(["flr", "cme"])
    ensures r[5].name == "SpaceX" && r[5].interval == Interval(cfg.everySpaceX) && r[5].job == Refresh(["spacex"])
  {
    [ Registration("OSDR", Interval(cfg.everyOsdr), StoreOsdr),
      Registration("ISS", Interval(cfg.everyIss), StoreIss),
      Registration("APOD", Interval(cfg.everyApod), Refresh(["apod"])),
      Registration("NEO", Interval(cfg.everyNeo), Refresh(["neo"])),
      Registration("DONKI", Interval(cfg.everyDonki), Refresh(["flr", "cme"])),
      Registration("SpaceX", Interval(cfg.everySpaceX), Refresh(["spacex"])) ]
  }

  /** The refresh jobs between them cover the five cache sources, each
      exactly once, in the order the summary and the default request use. */
  lemma {:induction false} RefreshJobsCoverSources(cfg: RetryConfig)
    ensures var r := StartBackgroundTasks(cfg);
      r[2].job.sources + r[3].job.sources + r[4].job.sources + r[5].job.sources
        == ["apod", "neo", "flr", "cme", "spacex"]
    ensures forall k :: 0 <= k < 2 ==> !StartBackgroundTasks(cfg)[k].job.Refresh?
  {
  }

  /** With no environment, every interval is its default in nanoseconds,
      so no ticker panics. */
  lemma {:induction false} DefaultSchedule()
    ensures var r := StartBackgroundTasks(Retry(map[]));
      r[0].interval == 600 * Second && r[1].interval == 120 * Second
      && r[2].interval == 43200 * Second && r[3].interval == 7200 * Second
      && r[4].interval == 3600 * Second && r[5].interval == 3600 * Second
    ensures forall k :: 0 <= k < 6 ==> StartBackgroundTasks(Retry(map[]))[k].interval > 0
  {
    DefaultIntervals(map[]);
  }

  /** An interval of zero seconds, or one whose nanosecond count overflows
      int64, reaches NewTicker as a non-positive duration: that job's
      goroutine panics before its first run. */
  lemma {:induction false} NonPositiveIntervals()
    ensures Interval(0) == 0
    ensures Interval(9_223_372_037) < 0
    ensures Interval(0x8000_0000_0000_0000) <= 0
  {
  }

  /** A positive interval that fits int64 nanoseconds is accepted. */
  lemma {:induction false} PositiveIntervals(seconds: nat)
    requires 0 < seconds <= 9_223_372_036
    ensures Interval(seconds) == seconds * Second > 0
  {
  }

  /** FETCH_EVERY_SECONDS=0 is a valid setting, yet it gives the OSDR job a
      zero interval, so its ticker panics. */
  lemma {:induction false} ZeroSettingStopsOsdrJob(env: Env)
    requires Getenv(env, "FETCH_EVERY_SECONDS") == "0"
    ensures StartBackgroundTasks(Retry(env))[0].interval == 0
  {
    assert AllDigits("0") && DecimalValue("0") == 0;
  }
}

/** The runner (app/runner.go): two goroutines per runnable, one running it and
    one waiting to stop it, a channel closed once, and a wait for all of them. */
module Runner {
  import opened Model

  /** Runs runnable.Run(), then the deferred stop. */
  datatype RunGo = NotRun | InRun | Leaving | RunDone

  /** Waits for `stopped`, then runs runnable.Stop(). */
  datatype StopGo = NotWaiting | Blocked | InStop | StopDone

  /** Run's own progress: the next goroutine to spawn (two per runnable), then the wait. */
  datatype Main = Spawning(k: nat) | Waiting | Returned

  /** `once` is the sync.Once; `closes` counts closes of the channel, `stopCalls` calls of each Stop. */
  datatype Sys = Sys(main: Main, runs: seq<RunGo>, stops: seq<StopGo>, once: bool, closes: nat, stopCalls: seq<nat>)

  datatype Step =
    | ExternalStop
    | Spawn
    | RunReturns(i: nat)
    | DeferredStop(i: nat)
    | Wake(i: nat)
    | StopReturns(i: nat)
    | StartWaiting
    | WaitReturns

  function Init(n: nat): Sys {
    Sys(Spawning(0), seq(n, _ => NotRun), seq(n, _ => NotWaiting), false, 0, seq(n, _ => 0))
  }

  /** r.stop: whatever the number of calls, one close. */
  function Close(s: Sys): Sys {
    if s.once then s else s.(once := true, closes := s.closes + 1)
  }

  predicate AllDone(s: Sys) {
    && (forall i :: 0 <= i < |s.runs| ==> s.runs[i] == RunDone)
    && (forall i :: 0 <= i < |s.stops| ==> s.stops[i] == StopDone)
  }

  predicate Sized(s: Sys) {
    |s.runs| == |s.stops| == |s.stopCalls|
  }

  function Next(s: Sys, x: Step): Option<Sys>
    requires Sized(s)
  {
    match x
    case ExternalStop => Some(Close(s))
    case Spawn =>
      if s.main.Spawning? && s.main.k < 2 * |s.runs| then
        var i, s' := s.main.k / 2, s.(main := Spawning(s.main.k + 1));
        if s.main.k % 2 == 0 then Some(s'.(runs := s.runs[i := InRun]))
        else Some(s'.(stops := s.stops[i := Blocked]))
      else None
    case RunReturns(i) =>
      if i < |s.runs| && s.runs[i] == InRun then Some(s.(runs := s.runs[i := Leaving])) else None
    case DeferredStop(i) =>
      if i < |s.runs| && s.runs[i] == Leaving then Some(Close(s).(runs := s.runs[i := RunDone])) else None
    case Wake(i) =>
      if i < |s.stops| && s.stops[i] == Blocked && s.closes > 0 then
        Some(s.(stops := s.stops[i := InStop], stopCalls := s.stopCalls[i := s.stopCalls[i] + 1]))
      else None
    case StopReturns(i) =>
      if i < |s.stops| && s.stops[i] == InStop then Some(s.(stops := s.stops[i := StopDone])) else None
    case StartWaiting =>
      if s.main == Spawning(2 * |s.runs|) then Some(s.(main := Waiting)) else None
    case WaitReturns =>
      if s.main.Waiting? && AllDone(s) then Some(s.(main := Returned)) else None
  }

  function Exec(n: nat, run: seq<Step>): (s: Option<Sys>)
    ensures s.Some? ==> Sized(s.value) && |s.value.runs| == n
  {
    if run == [] then Some(Init(n))
    else
      var s := Exec(n, run[..|run| - 1]);
      if s.None? then None else Next(s.value, run[|run| - 1])
  }

  /** Did anybody call r.stop? */
  predicate Asked(run: seq<Step>) {
    run != [] && (Asked(run[..|run| - 1]) || run[|run| - 1].ExternalStop? || run[|run| - 1].DeferredStop?)
  }

  /** Spawned so far: two goroutines per runnable, in order. */
  predicate SpawnOk(s: Sys)
    requires Sized(s)
  {
    var k := if s.main.Spawning? then s.main.k else 2 * |s.runs|;
    && k <= 2 * |s.runs|
    && (forall i :: 0 <= i < |s.runs| ==> (s.runs[i] == NotRun <==> k <= 2 * i))
    && (forall i :: 0 <= i < |s.stops| ==> (s.stops[i] == NotWaiting <==> k <= 2 * i + 1))
  }

  ghost predicate Safe(s: Sys, run: seq<Step>) {
    && Sized(s) && SpawnOk(s)
    && s.closes == (if s.once then 1 else 0)
    && (s.once <==> Asked(run))
    && (forall i :: 0 <= i < |s.stops| ==>
          s.stopCalls[i] == if s.stops[i] == InStop || s.stops[i] == StopDone then 1 else 0)
    && (forall i :: 0 <= i < |s.stops| && s.stopCalls[i] > 0 ==> s.closes == 1)
    && (s.main.Returned? ==> AllDone(s))
    && (forall i :: 0 <= i < |s.runs| && s.runs[i] == RunDone ==> s.once)
  }

  lemma SafeSpawn(s: Sys, run: seq<Step>)
    requires Safe(s, run) && Next(s, Spawn).Some?
    ensures Safe(Next(s, Spawn).value, run + [Spawn])
  {
    assert (run + [Spawn])[..|run|] == run;
    var k, s' := s.main.k, Next(s, Spawn).value;
    var i := k / 2;
    assert k == 2 * i + k % 2;
    if k % 2 == 0 {
      assert s'.runs == s.runs[i := InRun] && s'.stops == s.stops;
    } else {
      assert s'.stops == s.stops[i := Blocked] && s'.runs == s.runs;
    }
    assert SpawnOk(s');
  }

  lemma SafeRunGo(s: Sys, run: seq<Step>, x: Step)
    requires Safe(s, run) && Next(s, x).Some? && (x.RunReturns? || x.DeferredStop?)
    ensures Safe(Next(s, x).value, run + [x])
  {
    assert (run + [x])[..|run|] == run;
  }

  lemma SafeStopGo(s: Sys, run: seq<Step>, x: Step)
    requires Safe(s, run) && Next(s, x).Some? && (x.Wake? || x.StopReturns?)
    ensures Safe(Next(s, x).value, run + [x])
  {
    assert (run + [x])[..|run|] == run;
  }

  lemma SafeStep(s: Sys, run: seq<Step>, x: Step)
    requires Safe(s, run) && Next(s, x).Some?
    ensures Safe(Next(s, x).value, run + [x])
  {
    assert (run + [x])[..|run|] == run;
    match x
    case Spawn => SafeSpawn(s, run);
    case RunReturns(_) => SafeRunGo(s, run, x);
    case DeferredStop(_) => SafeRunGo(s, run, x);
    case Wake(_) => SafeStopGo(s, run, x);
    case StopReturns(_) => SafeStopGo(s, run, x);
    case ExternalStop =>
    case StartWaiting =>
    case WaitReturns =>
  }

  /** On every interleaving with any number of external stops: the channel is closed
      at most once, and only if somebody asked; each Stop is called at most once and
      only after the close; and Run returns only when every Run and Stop has. */
  lemma {:induction false} Safety(n: nat, run: seq<Step>)
    requires Exec(n, run).Some?
    ensures Safe(Exec(n, run).value, run)
  {
    if run != [] {
      var p := run[..|run| - 1];
      Safety(n, p);
      assert run == p + [run[|run| - 1]];
      SafeStep(Exec(n, p).value, p, run[|run| - 1]);
    }
  }

  // ---------------------------------------------------------------------------
  // Shutdown ends

  function RunWork(g: RunGo): nat {
    match g case NotRun => 3 case InRun => 2 case Leaving => 1 case RunDone => 0
  }

  function StopWork(g: StopGo): nat {
    match g case NotWaiting => 3 case Blocked => 2 case InStop => 1 case StopDone => 0
  }

  function RunsWork(gs: seq<RunGo>): nat {
    if gs == [] then 0 else RunWork(gs[0]) + RunsWork(gs[1..])
  }

  function StopsWork(gs: seq<StopGo>): nat {
    if gs == [] then 0 else StopWork(gs[0]) + StopsWork(gs[1..])
  }

  /** The goroutine steps still to come. */
  function Work(s: Sys): nat {
    RunsWork(s.runs) + StopsWork(s.stops) + (if s.main.Spawning? then 2 else if s.main.Waiting? then 1 else 0)
  }

  lemma {:induction false} RunsWorkUpdate(gs: seq<RunGo>, i: nat, g: RunGo)
    requires i < |gs|
    ensures RunsWork(gs[i := g]) == RunsWork(gs) - RunWork(gs[i]) + RunWork(g)
  {
    if i == 0 {
      assert gs[0 := g][1..] == gs[1..];
    } else {
      RunsWorkUpdate(gs[1..], i - 1, g);
      assert gs[i := g][1..] == gs[1..][i - 1 := g];
    }
  }

  lemma {:induction false} StopsWorkUpdate(gs: seq<StopGo>, i: nat, g: StopGo)
    requires i < |gs|
    ensures StopsWork(gs[i := g]) == StopsWork(gs) - StopWork(gs[i]) + StopWork(g)
  {
    if i == 0 {
      assert gs[0 := g][1..] == gs[1..];
    } else {
      StopsWorkUpdate(gs[1..], i - 1, g);
      assert gs[i := g][1..] == gs[1..][i - 1 := g];
    }
  }

  lemma SpawnShrinks(s: Sys)
    requires Sized(s) && SpawnOk(s) && Next(s, Spawn).Some?
    ensures Work(Next(s, Spawn).value) == Work(s) - 1
  {
    var i := s.main.k / 2;
    assert s.main.k == 2 * i + s.main.k % 2;
    if s.main.k % 2 == 0 { RunsWorkUpdate(s.runs, i, InRun); } else { StopsWorkUpdate(s.stops, i, Blocked); }
  }

  lemma RunGoShrinks(s: Sys, x: Step)
    requires Sized(s) && Next(s, x).Some? && (x.RunReturns? || x.DeferredStop?)
    ensures Work(Next(s, x).value) == Work(s) - 1
  {
    RunsWorkUpdate(s.runs, x.i, if x.RunReturns? then Leaving else RunDone);
  }

  lemma StopGoShrinks(s: Sys, x: Step)
    requires Sized(s) && Next(s, x).Some? && (x.Wake? || x.StopReturns?)
    ensures Work(Next(s, x).value) == Work(s) - 1
  {
    StopsWorkUpdate(s.stops, x.i, if x.Wake? then InStop else StopDone);
  }

  /** Every step but an external stop uses up exactly one unit of the work left. */
  lemma WorkShrinks(s: Sys, x: Step)
    requires Sized(s) && SpawnOk(s) && Next(s, x).Some?
    ensures Work(Next(s, x).value) == if x.ExternalStop? then Work(s) else Work(s) - 1
  {
    match x
    case Spawn => SpawnShrinks(s);
    case RunReturns(_) => RunGoShrinks(s, x);
    case DeferredStop(_) => RunGoShrinks(s, x);
    case Wake(_) => StopGoShrinks(s, x);
    case StopReturns(_) => StopGoShrinks(s, x);
    case ExternalStop =>
    case StartWaiting =>
    case WaitReturns =>
  }

  function Steps(run: seq<Step>): nat {
    if run == [] then 0 else Steps(run[..|run| - 1]) + (if run[|run| - 1].ExternalStop? then 0 else 1)
  }

  /** A run takes exactly 6n + 2 goroutine steps to its end, whatever the interleaving. */
  lemma {:induction false} StepsTaken(n: nat, run: seq<Step>)
    requires Exec(n, run).Some?
    ensures Steps(run) + Work(Exec(n, run).value) == 6 * n + 2
    ensures Exec(n, run).value.main.Returned? <==> Work(Exec(n, run).value) == 0
  {
    Safety(n, run);
    if run == [] {
      InitialWork(n);
    } else {
      var p := run[..|run| - 1];
      StepsTaken(n, p);
      Safety(n, p);
      WorkShrinks(Exec(n, p).value, run[|run| - 1]);
    }
    NoWorkLeft(Exec(n, run).value);
  }

  lemma {:induction false} InitialWork(n: nat)
    ensures RunsWork(Init(n).runs) == 3 * n && StopsWork(Init(n).stops) == 3 * n
  {
    if n > 0 {
      InitialWork(n - 1);
      assert Init(n).runs[1..] == Init(n - 1).runs && Init(n).stops[1..] == Init(n - 1).stops;
    }
  }

  lemma {:induction false} NoRuns(gs: seq<RunGo>)
    requires forall i :: 0 <= i < |gs| ==> gs[i] == RunDone
    ensures RunsWork(gs) == 0
  {
    if gs != [] { NoRuns(gs[1..]); }
  }

  lemma {:induction false} NoStops(gs: seq<StopGo>)
    requires forall i :: 0 <= i < |gs| ==> gs[i] == StopDone
    ensures StopsWork(gs) == 0
  {
    if gs != [] { NoStops(gs[1..]); }
  }

  lemma NoWorkLeft(s: Sys)
    requires AllDone(s)|| !s.main.Returned?
    ensures s.main.Returned? <==> Work(s) == 0
  {
    if s.main.Returned? {
      NoRuns(s.runs);
      NoStops(s.stops);
    }
  }

  /** The steps that need nobody's goodwill: each Run returns once its Stop has been
      called, each Stop returns, and nobody outside has to act. */
  predicate Guaranteed(s: Sys, x: Step)
    requires Sized(s)
  {
    && !x.ExternalStop? && Next(s, x).Some?
    && (x.RunReturns? ==> s.stopCalls[x.i] > 0)
  }

  /** Once some Run has returned, or anybody has called stop, some guaranteed step is
      always possible until Run returns: with WorkShrinks, shutdown comes to its end. */
  lemma NeverStuck(n: nat, run: seq<Step>) returns (x: Step)
    requires Exec(n, run).Some? && !Exec(n, run).value.main.Returned?
    requires Exec(n, run).value.once || exists i :: 0 <= i < n && Exec(n, run).value.runs[i] == Leaving
    ensures Guaranteed(Exec(n, run).value, x)
  {
    Safety(n, run);
    var s := Exec(n, run).value;
    if s.main.Spawning? {
      x := if s.main.k < 2 * |s.runs| then Spawn else StartWaiting;
    } else if i: nat :| i < n && s.runs[i] == Leaving {
      x := DeferredStop(i);
    } else if i: nat :| i < n && s.stops[i] == Blocked {
      x := Wake(i);
    } else if i: nat :| i < n && s.stops[i] == InStop {
      x := StopReturns(i);
    } else if i: nat :| i < n && s.runs[i] == InRun {
      assert s.stops[i] == StopDone;
      x := RunReturns(i);
    } else {
      x := WaitReturns;
    }
  }

  // ---------------------------------------------------------------------------
  // The runner object, with its goroutines scheduled in any order

  predicate CanGo(s: Sys, i: nat, runner: bool) {
    if runner then i < |s.runs| && (s.runs[i] == InRun || s.runs[i] == Leaving)
    else i < |s.stops| && ((s.stops[i] == Blocked && s.closes > 0) || s.stops[i] == InStop)
  }

  class Runner {
    const n: nat
    var main: Main
    var runs: seq<RunGo>
    var stops: seq<StopGo>
    var once: bool
    var closes: nat
    var stopCalls: seq<nat>
    ghost var run: seq<Step>

    function State(): Sys
      reads this
    {
      Sys(main, runs, stops, once, closes, stopCalls)
    }

    ghost predicate Valid()
      reads this
    {
      Exec(n, run) == Some(State())
    }

    /** NewRunner for n runnables. */
    constructor (n: nat)
      ensures Valid() && this.n == n && run == []
    {
      this.n := n;
      main, runs, stops := Spawning(0), seq(n, _ => NotRun), seq(n, _ => NotWaiting);
      once, closes, stopCalls, run := false, 0, seq(n, _ => 0), [];
    }

    ghost method Took(x: Step)
      requires Exec(n, run).Some? && Next(Exec(n, run).value, x) == Some(State())
      modifies this`run
      ensures Valid() && run == old(run) + [x]
    {
      run := run + [x];
      assert run[..|run| - 1] == old(run);
    }

    /** The closure `stop`: o.Do(close(stopCh)). */
    method CloseOnce()
      modifies this`once, this`closes
      ensures once && closes == old(closes) + (if old(once) then 0 else 1)
    {
      if !once {
        once, closes := true, closes + 1;
      }
    }

    method Stop()
      requires Valid()
      modifies this
      ensures Valid() && run == old(run) + [ExternalStop]
    {
      CloseOnce();
      Took(ExternalStop);
    }

    /** The goroutine of runnable i that runs it goes as far as its next visible action, if it can. */
    method ScheduleRun(i: nat)
      requires Valid()
      modifies this
      ensures Valid() && main == old(main)
      ensures Work(State()) == Work(old(State())) - (if old(CanGo(State(), i, true)) then 1 else 0)
    {
      Safety(n, run);
      ghost var s := State();
      if i < n && runs[i] == InRun {
        WorkShrinks(s, RunReturns(i));
        runs := runs[i := Leaving];
        Took(RunReturns(i));
      } else if i < n && runs[i] == Leaving {
        WorkShrinks(s, DeferredStop(i));
        CloseOnce();
        runs := runs[i := RunDone];
        Took(DeferredStop(i));
      }
    }

    /** Likewise the goroutine that waits to stop it. */
    method ScheduleStop(i: nat)
      requires Valid()
      modifies this
      ensures Valid() && main == old(main)
      ensures Work(State()) == Work(old(State())) - (if old(CanGo(State(), i, false)) then 1 else 0)
    {
      Safety(n, run);
      ghost var s := State();
      if i < n && stops[i] == Blocked && closes > 0 {
        WorkShrinks(s, Wake(i));
        stops, stopCalls := stops[i := InStop], stopCalls[i := stopCalls[i] + 1];
        Took(Wake(i));
      } else if i < n && stops[i] == InStop {
        WorkShrinks(s, StopReturns(i));
        stops := stops[i := StopDone];
        Took(StopReturns(i));
      }
    }

    /** Either goroutine of runnable i. */
    method Schedule(i: nat, runner: bool)
      requires Valid()
      modifies this
      ensures Valid() && main == old(main)
      ensures Work(State()) == Work(old(State())) - (if old(CanGo(State(), i, runner)) then 1 else 0)
    {
      if runner {
        ScheduleRun(i);
      } else {
        ScheduleStop(i);
      }
    }

    /** The k-th of the 2n goroutines. */
    method SpawnNext(k: nat)
      requires Valid() && main == Spawning(k) && k < 2 * n
      modifies this
      ensures Valid() && main == Spawning(k + 1) && run == old(run) + [Spawn]
    {
      if k % 2 == 0 {
        runs := runs[k / 2 := InRun];
      } else {
        stops := stops[k / 2 := Blocked];
      }
      main := Spawning(k + 1);
      Took(Spawn);
    }

    /** Blocks until every goroutine has returned, whatever their order. */
    method Wait()
      requires Valid() && main == Spawning(2 * n)
      modifies this
      ensures Valid() && main == Returned && AllDone(State())
    {
      main := Waiting;
      Took(StartWaiting);
      while !AllDone(State())
        invariant Valid() && main == Waiting
        decreases Work(State())
      {
        SomebodyCanGo(n, run);
        var i: nat, runner: bool :| CanGo(State(), i, runner);
        Schedule(i, runner);
      }
      main := Returned;
      Took(WaitReturns);
    }

    /** Spawns two goroutines per runnable, any of which may already be going, and
        returns once all of them have: at least one Run has to return by itself
        for that, or Stop has to be called. */
    method Run()
      requires Valid() && main == Spawning(0)
      modifies this
      ensures Valid() && main == Returned && AllDone(State())
    {
      for k := 0 to 2 * n
        invariant Valid() && main == Spawning(k)
      {
        var i: nat, runner: bool :| true;
        Schedule(i, runner);
        SpawnNext(k);
      }
      Wait();
    }
  }

  /** While goroutines are left, one of them can go on. */
  lemma SomebodyCanGo(n: nat, run: seq<Step>)
    requires Exec(n, run).Some? && Exec(n, run).value.main.Waiting? && !AllDone(Exec(n, run).value)
    ensures exists i: nat, runner: bool :: CanGo(Exec(n, run).value, i, runner)
  {
    Safety(n, run);
    var s := Exec(n, run).value;
    if i: nat :| i < n && s.runs[i] != RunDone {
      assert CanGo(s, i, true);
    } else {
      var i: nat :| i < n && s.stops[i] != StopDone;
      assert s.runs[i] == RunDone;
      assert CanGo(s, i, false);
    }
  }
}

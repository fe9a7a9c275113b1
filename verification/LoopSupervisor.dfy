/**
 A supervised loop (looper/looper_util.py of the hardware_mng package): the loop thread, its
 `_run` and `_wait` events, and the start, stop, pause and resume calls of LoopSupervisor.

 Every read or write of an event is a step of its own, so that a supervisor call can be
 interrupted at any point by the loop thread and the loop thread by a supervisor call.
 */
module LoopSupervisor {
  import opened Options

  /** Where a loop thread is in `_loop`. */
  datatype Pc =
    | Fresh       // Thread object exists, start() not called
    | Head        // about to test _run
    | Waiting     // in _wait.wait()
    | Ready       // wait() has returned; the job has not started
    | InJob
    | Pausing     // job asked to pause: about to clear _wait
    | Stopping    // job asked to stop: about to clear _run
    | Waking      // job asked to stop: about to set _wait
    | Leaving     // job asked to stop: about to return
    | Tail        // about to test _run again
    | Sleeping
    | Dead

  predicate Live(p: Pc) { !p.Fresh? && !p.Dead? }

  datatype JobResult = Continue | Pause | Stop | Crash

  /** Where a thread that calls the supervisor is. */
  datatype Caller =
    | Idle
    | Creating(paused: bool)    // _start_loop found the loop not running
    | SettingRun(paused: bool)  // Thread object stored
    | SettingWait(paused: bool)
    | Launching
    | ClearingRun               // _request_loop_stop found the loop running
    | SettingWake

  datatype Request = StartLoop(paused: bool) | StopLoop | PauseLoop | ResumeLoop

  datatype Loop = Loop(run: bool, wait: bool, threads: seq<Pc>, current: Option<nat>, callers: seq<Caller>)

  predicate IsRunning(l: Loop) { l.current.Some? && l.current.value < |l.threads| && Live(l.threads[l.current.value]) }

  datatype Action =
    | Advance(t: nat, result: JobResult)  // the next step of thread t; result matters in the job
    | Begin(k: nat, req: Request)         // an idle caller begins a call
    | Go(k: nat, ok: bool)                // the next step of a call; ok: did Thread.start() succeed

  ghost predicate Enabled(l: Loop, a: Action)
  {
    match a
    case Advance(t, _) => t < |l.threads| && Live(l.threads[t]) && (l.threads[t].Waiting? ==> l.wait)
    case Begin(k, _) => k < |l.callers| && l.callers[k].Idle?
    case Go(k, _) => k < |l.callers| && !l.callers[k].Idle?
  }

  function AfterJob(r: JobResult): Pc
  {
    match r
    case Continue => Tail   // also when the job raised and exception_cb handled it
    case Pause => Pausing
    case Stop => Stopping
    case Crash => Dead      // exception_cb itself raised
  }

  function Thread(l: Loop, t: nat, r: JobResult): Loop
    requires t < |l.threads|
  {
    match l.threads[t]
    case Fresh | Dead => l
    case Head => l.(threads := l.threads[t := if l.run then Waiting else Dead])
    case Waiting => l.(threads := l.threads[t := Ready])
    case Ready => l.(threads := l.threads[t := InJob])
    case InJob => l.(threads := l.threads[t := AfterJob(r)])
    case Pausing => l.(wait := false, threads := l.threads[t := Tail])
    case Stopping => l.(run := false, threads := l.threads[t := Waking])
    case Waking => l.(wait := true, threads := l.threads[t := Leaving])
    case Leaving => l.(threads := l.threads[t := Dead])
    case Tail => l.(threads := l.threads[t := if l.run then Sleeping else Dead])
    case Sleeping => l.(threads := l.threads[t := Head])
  }

  function Call(l: Loop, k: nat, req: Request): Loop
    requires k < |l.callers|
  {
    match req
    case StartLoop(paused) => if IsRunning(l) then l else l.(callers := l.callers[k := Creating(paused)])
    case StopLoop => if IsRunning(l) then l.(callers := l.callers[k := ClearingRun]) else l
    case PauseLoop => l.(wait := false)
    case ResumeLoop => l.(wait := true)
  }

  function Proceed(l: Loop, k: nat, ok: bool): Loop
    requires k < |l.callers|
  {
    match l.callers[k]
    case Idle => l
    case Creating(p) =>
      l.(threads := l.threads + [Fresh], current := Some(|l.threads|), callers := l.callers[k := SettingRun(p)])
    case SettingRun(p) => l.(run := true, callers := l.callers[k := SettingWait(p)])
    case SettingWait(p) => l.(wait := !p, callers := l.callers[k := Launching])
    case Launching =>
      // a thread can be started once; a second start() raises
      if ok && l.current.Some? && l.current.value < |l.threads| && l.threads[l.current.value].Fresh?
      then l.(threads := l.threads[l.current.value := Head], callers := l.callers[k := Idle])
      else l.(callers := l.callers[k := Idle])
    case ClearingRun => l.(run := false, callers := l.callers[k := SettingWake])
    case SettingWake => l.(wait := true, callers := l.callers[k := Idle])
  }

  function Step(l: Loop, a: Action): (r: Loop)
    requires Enabled(l, a)
    ensures |l.threads| <= |r.threads| && |r.callers| == |l.callers|
  {
    match a
    case Advance(t, r) => Thread(l, t, r)
    case Begin(k, req) => Call(l, k, req)
    case Go(k, ok) => Proceed(l, k, ok)
  }

  function Init(callers: nat): Loop { Loop(false, false, [], None, seq(callers, _ => Idle)) }

  ghost predicate IsRun(l: Loop, run: seq<Action>)
    decreases |run|
  {
    run == [] || (Enabled(l, run[0]) && IsRun(Step(l, run[0]), run[1..]))
  }

  function After(l: Loop, run: seq<Action>): Loop
    requires IsRun(l, run)
    decreases |run|
  {
    if run == [] then l else After(Step(l, run[0]), run[1..])
  }

  // ---------- One caller at a time: one live thread per loop ----------

  /** The caller is past the running test of _start_loop. */
  predicate Starting(c: Caller) { c.Creating? || c.SettingRun? || c.SettingWait? || c.Launching? }

  ghost predicate Inv(l: Loop)
  {
    && |l.callers| == 1
    && (l.current.Some? ==> l.current.value < |l.threads|)
    && (forall t | 0 <= t < |l.threads| && Live(l.threads[t]) :: l.current == Some(t) && !Starting(l.callers[0]))
    && (l.callers[0].ClearingRun? || l.callers[0].SettingWake? ==>
          l.current.Some? && !l.threads[l.current.value].Fresh?)
    && (l.callers[0].SettingWake? ==> !l.run)
  }

  lemma ThreadKeepsInv(l: Loop, t: nat, r: JobResult)
    requires Inv(l) && t < |l.threads| && Live(l.threads[t])
    ensures Inv(Thread(l, t, r))
  {
  }

  lemma CallerKeepsInv(l: Loop, a: Action)
    requires Inv(l) && Enabled(l, a) && !a.Advance?
    ensures Inv(Step(l, a))
  {
  }

  lemma StepKeepsInv(l: Loop, a: Action)
    requires Inv(l) && Enabled(l, a)
    ensures Inv(Step(l, a))
  {
    if a.Advance? { ThreadKeepsInv(l, a.t, a.result); } else { CallerKeepsInv(l, a); }
  }

  lemma {:induction false} RunKeepsInv(l: Loop, run: seq<Action>)
    requires Inv(l) && IsRun(l, run)
    ensures Inv(After(l, run))
    decreases |run|
  {
    if run != [] {
      StepKeepsInv(l, run[0]);
      RunKeepsInv(Step(l, run[0]), run[1..]);
    }
  }

  ghost predicate AtMostOneLive(l: Loop)
  {
    forall t, u | 0 <= t < |l.threads| && 0 <= u < |l.threads| :: Live(l.threads[t]) && Live(l.threads[u]) ==> t == u
  }

  ghost predicate AlwaysOneLive(callers: nat)
  {
    forall run: seq<Action> | IsRun(Init(callers), run) :: AtMostOneLive(After(Init(callers), run))
  }

  /** At most one live thread exists per loop, in every interleaving, exactly when the
      supervisor has a single caller. */
  lemma OneLiveThreadExactly(callers: nat)
    requires callers > 0
    ensures AlwaysOneLive(callers) <==> callers == 1
  {
    if callers == 1 {
      forall run: seq<Action> | IsRun(Init(1), run)
        ensures AtMostOneLive(After(Init(1), run))
      {
        RunKeepsInv(Init(1), run);
      }
    } else {
      var run := TwoCallersRace(callers);
    }
  }

  /** Two callers can both find the loop stopped and both start a thread. */
  lemma TwoCallersRace(n: nat) returns (run: seq<Action>)
    requires n >= 2
    ensures IsRun(Init(n), run) && !AtMostOneLive(After(Init(n), run))
  {
    hide IsRun, After;
    var l := Init(n);
    run := EmptyRun(l);
    run, l := Extend(n, run, l, Begin(0, StartLoop(false)));
    run, l := Extend(n, run, l, Begin(1, StartLoop(false)));
    run, l := FinishStart(n, 0, run, l);
    run, l := FinishStart(n, 1, run, l);
    assert Live(l.threads[0]) && Live(l.threads[1]);
  }

  /** The four remaining steps of a successful unpaused start. */
  lemma FinishStart(n: nat, k: nat, run: seq<Action>, l: Loop) returns (longer: seq<Action>, next: Loop)
    requires IsRun(Init(n), run) && After(Init(n), run) == l && k < |l.callers| && l.callers[k] == Creating(false)
    ensures IsRun(Init(n), longer) && After(Init(n), longer) == next
    ensures next == Loop(true, true, l.threads + [Head], Some(|l.threads|), l.callers[k := Idle])
  {
    hide IsRun, After;
    longer, next := Extend(n, run, l, Go(k, true));
    longer, next := Extend(n, longer, next, Go(k, true));
    longer, next := Extend(n, longer, next, Go(k, true));
    assert next == Loop(true, true, l.threads + [Fresh], Some(|l.threads|), l.callers[k := Launching]);
    longer, next := Extend(n, longer, next, Go(k, true));
  }

  lemma EmptyRun(l: Loop) returns (run: seq<Action>)
    ensures IsRun(l, run) && After(l, run) == l
  {
    run := [];
  }

  /** One more step at the end of a run from the start. */
  lemma Extend(n: nat, run: seq<Action>, l: Loop, a: Action) returns (longer: seq<Action>, next: Loop)
    requires IsRun(Init(n), run) && After(Init(n), run) == l && Enabled(l, a)
    ensures IsRun(Init(n), longer) && After(Init(n), longer) == next == Step(l, a)
  {
    longer, next := run + [a], Step(l, a);
    Snoc(Init(n), run, a);
  }

  lemma {:induction false} Snoc(l: Loop, run: seq<Action>, a: Action)
    requires IsRun(l, run) && Enabled(After(l, run), a)
    ensures IsRun(l, run + [a]) && After(l, run + [a]) == Step(After(l, run), a)
    decreases |run|
  {
    hide Step, Enabled;
    if run == [] {
      assert run + [a] == [a] && [a][1..] == [];
    } else {
      Snoc(Step(l, run[0]), run[1..], a);
      assert (run + [a])[1..] == run[1..] + [a];
    }
  }

  // ---------- Pausing ----------

  predicate StartsJob(l: Loop, a: Action) { a.Advance? && a.t < |l.threads| && l.threads[a.t].Ready? }

  /** How many jobs start along a run. */
  ghost function Jobs(l: Loop, run: seq<Action>): nat
    requires IsRun(l, run)
    decreases |run|
  {
    if run == [] then 0
    else (if StartsJob(l, run[0]) then 1 else 0) + Jobs(Step(l, run[0]), run[1..])
  }

  /** A supervisor step that sets _wait: a resume, a stop's wake-up, an unpaused start. */
  predicate Wakes(l: Loop, a: Action)
  {
    match a
    case Advance(_, _) => false
    case Begin(_, req) => req.ResumeLoop?
    case Go(k, _) => k < |l.callers| && (l.callers[k].SettingWake? || l.callers[k] == SettingWait(false))
  }

  ghost predicate NoWake(l: Loop, run: seq<Action>)
    requires IsRun(l, run)
    decreases |run|
  {
    run == [] || (!Wakes(l, run[0]) && NoWake(Step(l, run[0]), run[1..]))
  }

  /** The loop thread, if any, stands between wait() and its job. */
  ghost predicate Committed(l: Loop) { exists t :: 0 <= t < |l.threads| && l.threads[t].Ready? }

  /** Nothing can leave wait(): _wait is clear, or a job's own stop has set it on its way out. */
  ghost predicate Held(l: Loop)
    requires |l.callers| == 1
  {
    l.wait ==>
      && !l.callers[0].Launching?
      && forall t | 0 <= t < |l.threads| :: l.threads[t] in {Fresh, Leaving, Dead}
  }

  lemma HeldStep(l: Loop, a: Action)
    requires Inv(l) && Enabled(l, a) && Held(l) && !Wakes(l, a)
    ensures Held(Step(l, a))
  {
  }

  lemma CommittedStep(l: Loop, a: Action)
    requires Inv(l) && Enabled(l, a) && Held(l)
    ensures StartsJob(l, a) ==> Committed(l) && !Committed(Step(l, a))
    ensures Committed(Step(l, a)) ==> Committed(l)
  {
    var r := Step(l, a);
    if Committed(r) {
      var t :| 0 <= t < |r.threads| && r.threads[t].Ready?;
      assert t < |l.threads| && l.threads[t].Ready?;
    }
  }

  lemma {:induction false} HeldBound(l: Loop, run: seq<Action>)
    requires Inv(l) && Held(l) && IsRun(l, run) && NoWake(l, run)
    ensures Jobs(l, run) <= if Committed(l) then 1 else 0
    decreases |run|
  {
    if run != [] {
      StepKeepsInv(l, run[0]);
      HeldStep(l, run[0]);
      CommittedStep(l, run[0]);
      HeldBound(Step(l, run[0]), run[1..]);
    }
  }

  /** After a pause and until a resume, a stop's wake-up or an unpaused start: at most one more
      job starts, and only if the thread had already passed wait() when the pause came. */
  lemma PauseHoldsJobs(before: seq<Action>, run: seq<Action>)
    requires IsRun(Init(1), before)
    requires var l := After(Init(1), before);
             Enabled(l, Begin(0, PauseLoop)) && var p := Step(l, Begin(0, PauseLoop)); IsRun(p, run) && NoWake(p, run)
    ensures var l := After(Init(1), before);
            Jobs(Step(l, Begin(0, PauseLoop)), run) <= if Committed(l) then 1 else 0
  {
    RunKeepsInv(Init(1), before);
    var l := After(Init(1), before);
    StepKeepsInv(l, Begin(0, PauseLoop));
    HeldBound(Step(l, Begin(0, PauseLoop)), run);
  }

  // ---------- Stopping ----------

  /** Steps thread t can still take while _run is clear. */
  function Rank(p: Pc): nat
  {
    match p
    case Fresh | Dead => 0
    case Head | Tail | Leaving => 1
    case Sleeping | Pausing | Waking => 2
    case Stopping => 3
    case InJob => 4
    case Ready => 5
    case Waiting => 6
  }

  predicate JobAhead(p: Pc) { p.Waiting? || p.Ready? }

  ghost function JobsOf(l: Loop, t: nat, run: seq<Action>): nat
    requires IsRun(l, run)
    decreases |run|
  {
    if run == [] then 0
    else (if StartsJob(l, run[0]) && run[0].t == t then 1 else 0) + JobsOf(Step(l, run[0]), t, run[1..])
  }

  ghost function StepsOf(t: nat, run: seq<Action>): nat
  {
    if run == [] then 0 else (if run[0].Advance? && run[0].t == t then 1 else 0) + StepsOf(t, run[1..])
  }

  /** Thread t has been asked to stop: _run is clear as long as it lives. */
  ghost predicate Doomed(l: Loop, t: nat)
  {
    Inv(l) && t < |l.threads| && !l.threads[t].Fresh? && (Live(l.threads[t]) ==> !l.run)
  }

  lemma DoomedStep(l: Loop, t: nat, a: Action)
    requires Doomed(l, t) && Enabled(l, a)
    ensures Doomed(Step(l, a), t)
    ensures Rank(Step(l, a).threads[t]) == Rank(l.threads[t]) || (a.Advance? && a.t == t)
    ensures a.Advance? && a.t == t ==> Rank(Step(l, a).threads[t]) < Rank(l.threads[t])
    ensures StartsJob(l, a) && a.t == t ==> JobAhead(l.threads[t]) && !JobAhead(Step(l, a).threads[t])
    ensures JobAhead(Step(l, a).threads[t]) ==> JobAhead(l.threads[t])
  {
    StepKeepsInv(l, a);
  }

  /** A thread asked to stop starts at most one more job and takes at most six more steps,
      whatever the supervisor is asked to do meanwhile. */
  lemma {:induction false} StopBounds(l: Loop, t: nat, run: seq<Action>)
    requires Doomed(l, t) && IsRun(l, run)
    ensures JobsOf(l, t, run) <= if JobAhead(l.threads[t]) then 1 else 0
    ensures Doomed(After(l, run), t) && StepsOf(t, run) + Rank(After(l, run).threads[t]) <= Rank(l.threads[t]) <= 6
    decreases |run|
  {
    if run != [] {
      DoomedStep(l, t, run[0]);
      StopBounds(Step(l, run[0]), t, run[1..]);
    }
  }

  /** A pause, or the paused start of a later thread. */
  predicate ClearsWait(l: Loop, a: Action)
  {
    match a
    case Advance(_, _) => false
    case Begin(_, req) => req.PauseLoop?
    case Go(k, _) => k < |l.callers| && l.callers[k] == SettingWait(true)
  }

  /** Some pause comes while thread t stands in wait(). */
  ghost predicate PausedInWait(l: Loop, t: nat, run: seq<Action>)
    requires IsRun(l, run)
    decreases |run|
  {
    run != [] &&
    ((ClearsWait(l, run[0]) && t < |l.threads| && l.threads[t].Waiting?) || PausedInWait(Step(l, run[0]), t, run[1..]))
  }

  /** Thread t stands in wait() and nothing lets it out. */
  predicate Stuck(l: Loop, t: nat) { t < |l.threads| && l.threads[t].Waiting? && !l.wait }

  /** A thread asked to stop gets stuck only by a pause that finds it in wait(): on its way there
      is no return to wait(), so a pause at any other moment does no harm. */
  lemma DoomedStuckStep(l: Loop, t: nat, a: Action)
    requires Doomed(l, t) && Enabled(l, a) && !Stuck(l, t)
    ensures Stuck(Step(l, a), t) <==> ClearsWait(l, a) && l.threads[t].Waiting?
  {
    DoomedStep(l, t, a);
    if l.threads[t].Waiting? { assert Live(l.threads[t]); }
  }

  lemma {:induction false} AwakeRun(l: Loop, t: nat, run: seq<Action>)
    requires Doomed(l, t) && !Stuck(l, t) && IsRun(l, run) && !PausedInWait(l, t, run)
    ensures Doomed(After(l, run), t) && !Stuck(After(l, run), t)
    decreases |run|
  {
    if run != [] {
      DoomedStep(l, t, run[0]);
      DoomedStuckStep(l, t, run[0]);
      AwakeRun(Step(l, run[0]), t, run[1..]);
    }
  }

  lemma {:induction false} StuckRun(l: Loop, t: nat, run: seq<Action>)
    requires Doomed(l, t) && !Stuck(l, t) && IsRun(l, run) && NoWake(l, run) && PausedInWait(l, t, run)
    ensures Stuck(After(l, run), t)
    decreases |run|
  {
    DoomedStep(l, t, run[0]);
    DoomedStuckStep(l, t, run[0]);
    if Stuck(Step(l, run[0]), t) {
      PauseAfterStopBlocks(Step(l, run[0]), t, run[1..]);
    } else {
      StuckRun(Step(l, run[0]), t, run[1..]);
    }
  }

  /** From the moment a stop request has cleared _run: at most one more job starts and at most
      six more steps of the thread happen, whatever the supervisor is asked to do meanwhile. */
  lemma StopLimitsJobs(before: seq<Action>, run: seq<Action>, t: nat)
    requires IsRun(Init(1), before)
    requires var l := After(Init(1), before);
             l.callers == [ClearingRun] && l.current == Some(t) && IsRun(Step(l, Go(0, true)), run)
    ensures var p := Step(After(Init(1), before), Go(0, true));
            JobsOf(p, t, run) <= 1 && StepsOf(t, run) <= 6
  {
    RunKeepsInv(Init(1), before);
    var l := After(Init(1), before);
    StepKeepsInv(l, Go(0, true));
    StopBounds(Step(l, Go(0, true)), t, run);
  }

  /** Once the stop request has also set _wait, and unless a pause then finds it in wait(): the
      thread is dead or can take its next step, and six steps bring it to its end. */
  lemma StopEndsThread(before: seq<Action>, run: seq<Action>, t: nat)
    requires IsRun(Init(1), before)
    requires var l := After(Init(1), before);
             && l.callers == [SettingWake] && l.current == Some(t)
             && var p := Step(l, Go(0, true)); IsRun(p, run) && !PausedInWait(p, t, run)
    ensures var p := Step(After(Init(1), before), Go(0, true));
            var r := After(p, run);
            && t < |p.threads| && t < |r.threads|
            && (r.threads[t].Dead? || Enabled(r, Advance(t, Continue)))
            && (StepsOf(t, run) >= 6 ==> r.threads[t].Dead?)
  {
    RunKeepsInv(Init(1), before);
    var l := After(Init(1), before);
    StepKeepsInv(l, Go(0, true));
    StopBounds(Step(l, Go(0, true)), t, run);
    AwakeRun(Step(l, Go(0, true)), t, run);
  }

  /** After a stop request, until something sets _wait again: the thread is stuck in wait(), not
      to end, exactly when some pause came while it stood there. */
  lemma StuckAfterStopExactly(before: seq<Action>, run: seq<Action>, t: nat)
    requires IsRun(Init(1), before)
    requires var l := After(Init(1), before);
             && l.callers == [SettingWake] && l.current == Some(t)
             && var p := Step(l, Go(0, true)); IsRun(p, run) && NoWake(p, run)
    ensures var p := Step(After(Init(1), before), Go(0, true));
            Stuck(After(p, run), t) <==> PausedInWait(p, t, run)
  {
    RunKeepsInv(Init(1), before);
    var l := After(Init(1), before);
    StepKeepsInv(l, Go(0, true));
    var p := Step(l, Go(0, true));
    if PausedInWait(p, t, run) { StuckRun(p, t, run); } else { AwakeRun(p, t, run); }
  }

  /** A pause that follows a stop request finds the thread in wait() and leaves it there. */
  lemma StopThenPause() returns (run: seq<Action>)
    ensures IsRun(Init(1), run)
    ensures After(Init(1), run) == Loop(false, false, [Waiting], Some(0), [Idle])
  {
    hide IsRun, After;
    var l := Init(1);
    run := EmptyRun(l);
    run, l := Extend(1, run, l, Begin(0, StartLoop(false)));
    run, l := FinishStart(1, 0, run, l);
    assert l == Loop(true, true, [Head], Some(0), [Idle]);
    run, l := Extend(1, run, l, Advance(0, Continue));
    run, l := Extend(1, run, l, Begin(0, StopLoop));
    run, l := Extend(1, run, l, Go(0, true));
    run, l := Extend(1, run, l, Go(0, true));
    run, l := Extend(1, run, l, Begin(0, PauseLoop));
  }

  /** There no step of the thread is possible until a supervisor step sets _wait. */
  lemma {:induction false} PauseAfterStopBlocks(l: Loop, t: nat, run: seq<Action>)
    requires Inv(l) && Stuck(l, t) && IsRun(l, run) && NoWake(l, run)
    ensures Stuck(After(l, run), t) && StepsOf(t, run) == 0
    decreases |run|
  {
    if run != [] {
      StepKeepsInv(l, run[0]);
      BlockedStep(l, t, run[0]);
      PauseAfterStopBlocks(Step(l, run[0]), t, run[1..]);
    }
  }

  lemma BlockedStep(l: Loop, t: nat, a: Action)
    requires Inv(l) && Stuck(l, t) && Enabled(l, a) && !Wakes(l, a)
    ensures Stuck(Step(l, a), t) && !(a.Advance? && a.t == t)
  {
    assert Live(l.threads[t]);
  }

  // ---------- What the calls do ----------

  /** The n further steps of a call that nobody interrupts. */
  function GoOn(k: nat, n: nat): seq<Action> { seq(n, _ => Go(k, true)) }

  /** The steps of a request after its first. */
  function More(l: Loop, req: Request): nat
  {
    if req.StartLoop? && !IsRunning(l) then 4 else if req.StopLoop? && IsRunning(l) then 2 else 0
  }

  /** Where a request that nobody interrupts leads: a start of a loop that is not running to a new
      thread at its head, with _run set and the pause as asked; a stop of a running loop, paused or
      not, to _run clear and _wait set; a start of a running loop and a stop of one that is not to no
      change; pause and resume decide _wait whether or not the loop runs. */
  function Requested(l: Loop, req: Request): Loop
  {
    match req
    case StartLoop(paused) =>
      if IsRunning(l) then l else Loop(true, !paused, l.threads + [Head], Some(|l.threads|), l.callers)
    case StopLoop => if IsRunning(l) then l.(run := false, wait := true) else l
    case PauseLoop => l.(wait := false)
    case ResumeLoop => l.(wait := true)
  }

  /** The loop with caller k elsewhere. */
  function CallerAt(l: Loop, k: nat, c: Caller): Loop
    requires k < |l.callers|
  {
    l.(callers := l.callers[k := c])
  }

  /** A step of caller k from c to d that leaves the rest as in m, and n - 1 more. */
  lemma GoesOn(l: Loop, k: nat, c: Caller, m: Loop, d: Caller, n: nat)
    requires n > 0 && k < |l.callers| && m.callers == l.callers && !c.Idle?
    requires Proceed(CallerAt(l, k, c), k, true) == CallerAt(CallerAt(m, k, c), k, d)
    requires IsRun(CallerAt(m, k, d), GoOn(k, n - 1))
    ensures IsRun(CallerAt(l, k, c), GoOn(k, n))
    ensures After(CallerAt(l, k, c), GoOn(k, n)) == After(CallerAt(m, k, d), GoOn(k, n - 1))
  {
    hide Proceed;
    assert GoOn(k, n)[1..] == GoOn(k, n - 1);
    assert CallerAt(CallerAt(m, k, c), k, d) == CallerAt(m, k, d);
    assert Step(CallerAt(l, k, c), GoOn(k, n)[0]) == CallerAt(m, k, d);
  }

  lemma NoneOn(l: Loop, k: nat)
    ensures IsRun(l, GoOn(k, 0)) && After(l, GoOn(k, 0)) == l
  {
    assert GoOn(k, 0) == [];
  }

  lemma BeginFirst(l: Loop, k: nat, req: Request, n: nat)
    requires k < |l.callers| && l.callers[k].Idle? && IsRun(Call(l, k, req), GoOn(k, n))
    ensures IsRun(l, [Begin(k, req)] + GoOn(k, n))
    ensures After(l, [Begin(k, req)] + GoOn(k, n)) == After(Call(l, k, req), GoOn(k, n))
  {
    assert ([Begin(k, req)] + GoOn(k, n))[1..] == GoOn(k, n);
  }

  lemma StartGoesOn(l: Loop, k: nat, p: bool)
    requires k < |l.callers| && l.callers[k].Idle?
    ensures IsRun(CallerAt(l, k, Creating(p)), GoOn(k, 4))
    ensures After(CallerAt(l, k, Creating(p)), GoOn(k, 4))
         == Loop(true, !p, l.threads + [Head], Some(|l.threads|), l.callers)
  {
    hide IsRun, After, GoOn;
    var a := l.(threads := l.threads + [Fresh], current := Some(|l.threads|));
    var b := a.(run := true);
    var c := b.(wait := !p);
    var d := c.(threads := l.threads + [Head]);
    assert CallerAt(d, k, Idle) == d;
    assert c.threads[|l.threads| := Head] == d.threads;
    NoneOn(d, k);
    GoesOn(c, k, Launching, d, Idle, 1);
    GoesOn(b, k, SettingWait(p), c, Launching, 2);
    GoesOn(a, k, SettingRun(p), b, SettingWait(p), 3);
    GoesOn(l, k, Creating(p), a, SettingRun(p), 4);
  }

  lemma StopGoesOn(l: Loop, k: nat)
    requires k < |l.callers| && l.callers[k].Idle?
    ensures IsRun(CallerAt(l, k, ClearingRun), GoOn(k, 2))
    ensures After(CallerAt(l, k, ClearingRun), GoOn(k, 2)) == l.(run := false, wait := true)
  {
    hide IsRun, After, GoOn;
    var a := l.(run := false);
    var b := a.(wait := true);
    assert CallerAt(b, k, Idle) == b;
    NoneOn(b, k);
    GoesOn(a, k, SettingWake, b, Idle, 1);
    GoesOn(l, k, ClearingRun, a, SettingWake, 2);
  }

  /** Every request that nobody interrupts leads where it should, in any state of the loop. */
  lemma RequestDecides(l: Loop, k: nat, req: Request)
    requires k < |l.callers| && l.callers[k].Idle?
    ensures var run := [Begin(k, req)] + GoOn(k, More(l, req)); IsRun(l, run) && After(l, run) == Requested(l, req)
  {
    hide IsRun, After, GoOn;
    if req.StartLoop? { StartGoesOn(l, k, req.paused); }
    StopGoesOn(l, k);
    NoneOn(Call(l, k, req), k);
    BeginFirst(l, k, req, More(l, req));
  }

  /** A supervisor step or a job's own stop sets _wait. */
  predicate SetsWait(l: Loop, a: Action)
  {
    Wakes(l, a) || (a.Advance? && a.t < |l.threads| && l.threads[a.t].Waking?)
  }

  /** A supervisor step or a job's own pause clears it. */
  predicate UnsetsWait(l: Loop, a: Action)
  {
    ClearsWait(l, a) || (a.Advance? && a.t < |l.threads| && l.threads[a.t].Pausing?)
  }

  /** What the last step of a run that concerns _wait made of it. */
  ghost function WaitTold(l: Loop, run: seq<Action>, first: bool): bool
    requires IsRun(l, run)
    decreases |run|
  {
    if run == [] then first
    else WaitTold(Step(l, run[0]), run[1..], if SetsWait(l, run[0]) then true else if UnsetsWait(l, run[0]) then false else first)
  }

  /** In every run a loop reads as paused exactly when the last pause, paused start or pause asked by a
      job came after the last resume, unpaused start, stop's wake-up or stop asked by a job. */
  lemma {:induction false} PausedExactly(l: Loop, run: seq<Action>)
    requires IsRun(l, run)
    ensures After(l, run).wait <==> WaitTold(l, run, l.wait)
    decreases |run|
  {
    if run != [] {
      WaitStep(l, run[0]);
      PausedExactly(Step(l, run[0]), run[1..]);
    }
  }

  lemma WaitStep(l: Loop, a: Action)
    requires Enabled(l, a)
    ensures Step(l, a).wait == if SetsWait(l, a) then true else if UnsetsWait(l, a) then false else l.wait
  {
  }

  // ---------- Why threads end ----------

  /** Dead, or past the point from which it only goes on to its end. */
  predicate Ending(p: Pc) { p in {Stopping, Waking, Leaving, Dead} }

  /** What sets thread t on its way to the end: it finds _run clear at one of its two tests, or its
      job asks to stop or crashes. */
  predicate EndsThread(l: Loop, t: nat, a: Action)
  {
    && a.Advance? && a.t == t && t < |l.threads|
    && ((l.threads[t] in {Head, Tail} && !l.run) || (l.threads[t].InJob? && a.result in {Stop, Crash}))
  }

  ghost predicate EndedAlong(l: Loop, t: nat, run: seq<Action>)
    requires IsRun(l, run)
    decreases |run|
  {
    run != [] && (EndsThread(l, t, run[0]) || EndedAlong(Step(l, run[0]), t, run[1..]))
  }

  predicate EndingAt(l: Loop, t: nat) { t < |l.threads| && Ending(l.threads[t]) }

  lemma EndingStep(l: Loop, t: nat, a: Action)
    requires Enabled(l, a)
    ensures EndingAt(Step(l, a), t) <==> EndingAt(l, t) || EndsThread(l, t, a)
  {
  }

  lemma {:induction false} EndingRun(l: Loop, t: nat, run: seq<Action>)
    requires IsRun(l, run)
    ensures EndingAt(After(l, run), t) <==> EndingAt(l, t) || EndedAlong(l, t, run)
    decreases |run|
  {
    if run != [] {
      hide EndingAt, EndsThread, Step, Enabled;
      EndingStep(l, t, run[0]);
      EndingRun(Step(l, run[0]), t, run[1..]);
    }
  }

  /** In every run, with any number of callers: a thread is dead, or past the point from which it can
      only end, exactly when it found _run clear at one of its tests, or one of its jobs asked to
      stop or crashed. Nothing else ends a thread. */
  lemma ThreadEndsExactly(callers: nat, run: seq<Action>, t: nat)
    requires IsRun(Init(callers), run)
    ensures EndingAt(After(Init(callers), run), t) <==> EndedAlong(Init(callers), t, run)
  {
    EndingRun(Init(callers), t, run);
  }

  /** A step that asks for an end: a stop request, or a job that asks to stop or crashes. */
  predicate AsksEnd(a: Action)
  {
    (a.Begin? && a.req.StopLoop?) || (a.Advance? && a.result in {Stop, Crash})
  }

  /** Nobody has asked for an end: threads that were started are going, with _run set. */
  ghost predicate Unasked(l: Loop)
  {
    && Inv(l)
    && l.callers[0] !in {ClearingRun, SettingWake}
    && (forall t | 0 <= t < |l.threads| :: !Ending(l.threads[t]))
    && (l.callers[0].SettingWait? || l.callers[0].Launching? ==> l.run)
    && (forall t | 0 <= t < |l.threads| && Live(l.threads[t]) :: l.run)
  }

  lemma UnaskedStep(l: Loop, a: Action)
    requires Unasked(l) && Enabled(l, a) && !AsksEnd(a)
    ensures Unasked(Step(l, a))
  {
    StepKeepsInv(l, a);
  }

  lemma {:induction false} UnaskedRun(l: Loop, run: seq<Action>)
    requires Unasked(l) && IsRun(l, run) && forall i | 0 <= i < |run| :: !AsksEnd(run[i])
    ensures Unasked(After(l, run))
    decreases |run|
  {
    if run != [] {
      UnaskedStep(l, run[0]);
      UnaskedRun(Step(l, run[0]), run[1..]);
    }
  }

  /** Pauses, resumes and starts never end a thread: in every run of one caller without a stop
      request and without a job that asks to stop or crashes, every thread ever started is live. */
  lemma NeverEndsUnasked(run: seq<Action>, t: nat)
    requires IsRun(Init(1), run) && forall i | 0 <= i < |run| :: !AsksEnd(run[i])
    ensures var l := After(Init(1), run);
            t < |l.threads| && !l.threads[t].Fresh? ==> Live(l.threads[t]) && l.run && l.current == Some(t)
  {
    UnaskedRun(Init(1), run);
  }

  // ---------- What a thread does when let go on ----------

  /** n steps of thread t whose jobs return normally. */
  function Going(t: nat, n: nat): seq<Action> { seq(n, _ => Advance(t, Continue)) }

  /** The loop with thread t elsewhere. */
  function At(l: Loop, t: nat, p: Pc): Loop
    requires t < |l.threads|
  {
    l.(threads := l.threads[t := p])
  }

  /** A step of thread t from p to q that leaves the events as in m, and n - 1 more. */
  lemma Goes(l: Loop, t: nat, p: Pc, m: Loop, q: Pc, n: nat)
    requires n > 0 && t < |l.threads| && m.threads == l.threads
    requires Enabled(At(l, t, p), Advance(t, Continue)) && Thread(At(l, t, p), t, Continue) == At(At(m, t, p), t, q)
    requires IsRun(At(m, t, q), Going(t, n - 1))
    ensures IsRun(At(l, t, p), Going(t, n)) && After(At(l, t, p), Going(t, n)) == After(At(m, t, q), Going(t, n - 1))
    ensures JobsOf(At(l, t, p), t, Going(t, n)) == (if p.Ready? then 1 else 0) + JobsOf(At(m, t, q), t, Going(t, n - 1))
  {
    hide Thread;
    assert Going(t, n)[1..] == Going(t, n - 1);
    assert At(At(m, t, p), t, q) == At(m, t, q);
    assert Step(At(l, t, p), Going(t, n)[0]) == At(m, t, q);
  }

  /** One turn of the loop: six steps from the head back to it, and one job. */
  lemma OneTurn(l: Loop, t: nat, n: nat)
    requires n >= 6 && t < |l.threads| && l.threads[t].Head? && l.run && l.wait && IsRun(l, Going(t, n - 6))
    ensures IsRun(l, Going(t, n)) && After(l, Going(t, n)) == After(l, Going(t, n - 6))
    ensures JobsOf(l, t, Going(t, n)) == 1 + JobsOf(l, t, Going(t, n - 6))
  {
    hide IsRun, After, JobsOf, Going;
    assert At(l, t, Head) == l;
    Goes(l, t, Sleeping, l, Head, n - 5);
    Goes(l, t, Tail, l, Sleeping, n - 4);
    Goes(l, t, InJob, l, Tail, n - 3);
    Goes(l, t, Ready, l, InJob, n - 2);
    Goes(l, t, Waiting, l, Ready, n - 1);
    Goes(l, t, Head, l, Waiting, n);
  }

  /** An unpaused loop that nobody stops goes round for ever: 6 n steps of its thread run exactly n
      jobs and bring it back to its head. */
  lemma {:induction false} GoesRound(l: Loop, t: nat, n: nat)
    requires t < |l.threads| && l.threads[t].Head? && l.run && l.wait
    ensures IsRun(l, Going(t, 6 * n)) && After(l, Going(t, 6 * n)) == l && JobsOf(l, t, Going(t, 6 * n)) == n
  {
    if n == 0 {
      assert Going(t, 0) == [];
    } else {
      GoesRound(l, t, n - 1);
      OneTurn(l, t, 6 * n);
    }
  }

  /** A resume lets a waiting thread go: its next two steps are possible and start its job, however
      long it was paused and whether or not it was asked to stop meanwhile. */
  lemma ResumeStartsJob(l: Loop, t: nat, k: nat)
    requires t < |l.threads| && l.threads[t].Waiting? && k < |l.callers| && l.callers[k].Idle?
    ensures var p := Step(l, Begin(k, ResumeLoop));
            && Enabled(l, Begin(k, ResumeLoop)) && IsRun(p, Going(t, 2))
            && JobsOf(p, t, Going(t, 2)) == 1 && After(p, Going(t, 2)) == At(p, t, InJob)
            && p == l.(wait := true)
  {
    hide IsRun, After, JobsOf, Going;
    var p := Step(l, Begin(k, ResumeLoop));
    NoMore(At(p, t, InJob), t);
    assert At(p, t, Waiting) == p;
    Goes(p, t, Ready, p, InJob, 1);
    Goes(p, t, Waiting, p, Ready, 2);
  }

  lemma NoMore(l: Loop, t: nat)
    ensures IsRun(l, Going(t, 0)) && After(l, Going(t, 0)) == l && JobsOf(l, t, Going(t, 0)) == 0
  {
    assert Going(t, 0) == [];
  }

  /** What becomes of a thread whose job has returned, if nobody interferes: a job that goes on leads
      back to the head; one that asks to pause leads to a wait that nothing ends, with _run still
      set; one that asks to stop ends the thread, with _run clear and _wait set, as a stop request
      would. */
  lemma JobResultDecides(l: Loop, t: nat, r: JobResult)
    requires t < |l.threads| && l.threads[t].InJob? && l.run
    ensures var run := [Advance(t, r)] + Going(t, if r.Continue? then 2 else if r.Pause? then 4 else if r.Stop? then 3 else 0);
            && IsRun(l, run) && JobsOf(l, t, run) == 0
            && After(l, run) ==
               match r
               case Continue => At(l, t, Head)
               case Pause => At(l, t, Waiting).(wait := false)
               case Stop => At(l, t, Dead).(run := false, wait := true)
               case Crash => At(l, t, Dead)
  {
    hide IsRun, After, JobsOf, Going;
    match r
    case Continue =>
      NoMore(At(l, t, Head), t);
      Goes(l, t, Sleeping, l, Head, 1);
      Goes(l, t, Tail, l, Sleeping, 2);
      FirstOf(l, t, r, 2);
    case Pause =>
      var held := l.(wait := false);
      NoMore(At(held, t, Waiting), t);
      Goes(held, t, Head, held, Waiting, 1);
      Goes(held, t, Sleeping, held, Head, 2);
      Goes(held, t, Tail, held, Sleeping, 3);
      Goes(l, t, Pausing, held, Tail, 4);
      FirstOf(l, t, r, 4);
    case Stop =>
      var over := l.(run := false);
      var woken := over.(wait := true);
      NoMore(At(woken, t, Dead), t);
      Goes(woken, t, Leaving, woken, Dead, 1);
      Goes(over, t, Waking, woken, Leaving, 2);
      Goes(l, t, Stopping, over, Waking, 3);
      FirstOf(l, t, r, 3);
    case Crash =>
      NoMore(At(l, t, Dead), t);
      FirstOf(l, t, r, 0);
  }

  lemma FirstOf(l: Loop, t: nat, r: JobResult, n: nat)
    requires t < |l.threads| && l.threads[t].InJob? && IsRun(At(l, t, AfterJob(r)), Going(t, n))
    ensures var run, p := [Advance(t, r)] + Going(t, n), At(l, t, AfterJob(r));
            && IsRun(l, run) && After(l, run) == After(p, Going(t, n))
            && JobsOf(l, t, run) == JobsOf(p, t, Going(t, n))
  {
    var run := [Advance(t, r)] + Going(t, n);
    assert run[1..] == Going(t, n);
    assert Step(l, run[0]) == At(l, t, AfterJob(r));
  }
}

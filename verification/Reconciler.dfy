/**
 The desired-state reconciler of hardware controllers (hw_controller_state_reconciler.py of
 the hardware_mng package).

 A controller is observed through its hardware flag and its loop: thread alive, loop paused.
 Each hardware or loop operation of a pass may succeed, report failure or raise.
 */
module Reconciler {
  import opened Options

  datatype State = UNINITIALIZED | INITIALIZED | RUNNING

  datatype Cell = Cell(hw: bool, alive: bool, paused: bool)

  /** _actual_state */
  function Actual(c: Cell): State
  {
    if c.hw && c.alive && !c.paused then RUNNING
    else if c.hw && c.alive && c.paused then INITIALIZED
    else UNINITIALIZED
  }

  datatype Outcome = Succeeds | Fails | Raises

  /** How the operations a pass may attempt on one controller will turn out. `starts`: does the
      thread start; `stops`: does the thread die within the join timeout. */
  datatype Luck = Luck(init: Outcome, deinit: Outcome, starts: bool, stops: bool)

  const GOOD := Luck(Succeeds, Succeeds, true, true)

  /** An operation on hardware or loop, and how it turned out. A loop is started paused. */
  datatype Effect =
    | InitHw(out: Outcome)
    | DeinitHw(out: Outcome)
    | StartLoop(started: bool)
    | StopLoop(stopped: bool)
    | PauseLoop
    | ResumeLoop

  /** What an operation that turned out so makes of hardware flag, thread and pause. */
  function Replay(c: Cell, e: Effect): Cell
  {
    match e
    case InitHw(out) => c.(hw := c.hw || out.Succeeds?)
    case DeinitHw(out) => c.(hw := c.hw && !out.Succeeds?)
    case StartLoop(started) => Cell(c.hw, started, true)
    case StopLoop(stopped) => Cell(c.hw, c.alive && !stopped, false)
    case PauseLoop => c.(paused := true)
    case ResumeLoop => c.(paused := false)
  }

  function ReplayAll(c: Cell, es: seq<Effect>): Cell
    decreases |es|
  {
    if es == [] then c else ReplayAll(Replay(c, es[0]), es[1..])
  }

  /** When an operation may be attempted: hardware is deinitialised only once the thread is dead, a
      loop is started or resumed only over initialised hardware, and nothing is done twice. */
  predicate SafeIn(c: Cell, e: Effect)
  {
    match e
    case InitHw(_) => !c.hw
    case DeinitHw(_) => c.hw && !c.alive
    case StartLoop(_) => c.hw && !c.alive
    case StopLoop(_) => c.alive
    case PauseLoop => c.alive
    case ResumeLoop => c.hw && c.alive && c.paused
  }

  /** Each operation is attempted in a state in which it may be. */
  predicate SafeAlong(c: Cell, es: seq<Effect>)
    decreases |es|
  {
    es == [] || (SafeIn(c, es[0]) && SafeAlong(Replay(c, es[0]), es[1..]))
  }

  datatype Did = Did(cell: Cell, effects: seq<Effect>, raised: bool)

  function ToInitialized(c: Cell, actual: State, luck: Luck): Did
  {
    match actual
    case UNINITIALIZED =>
      if !c.hw && luck.init.Raises? then Did(c, [InitHw(Raises)], true)
      else if !c.hw && luck.init.Fails? then Did(c, [InitHw(Fails)], false)
      else
        var up := c.(hw := true);
        var init := if c.hw then [] else [InitHw(Succeeds)];
        if !c.alive then Did(up.(alive := luck.starts, paused := true), init + [StartLoop(luck.starts)], false)
        else Did(up.(paused := true), init + [PauseLoop], false)
    case RUNNING => Did(c.(paused := true), [PauseLoop], false)
    case INITIALIZED => Did(c, [], false)
  }

  function ToRunning(c: Cell, actual: State, luck: Luck): Did
  {
    var first := if actual.UNINITIALIZED? then ToInitialized(c, actual, luck) else Did(c, [], false);
    if first.raised || Actual(first.cell) != INITIALIZED then first
    else Did(first.cell.(paused := false), first.effects + [ResumeLoop], false)
  }

  function ToUninitialized(c: Cell, luck: Luck): Did
  {
    if c.alive && !luck.stops then Did(c.(paused := false), [StopLoop(false)], false)  // join timed out
    else
      var stop := if c.alive then [StopLoop(true)] else [];
      var down := if c.alive then c.(alive := false, paused := false) else c;
      if !down.hw then Did(down, stop, false)
      else Did(down.(hw := !luck.deinit.Succeeds?), stop + [DeinitHw(luck.deinit)], luck.deinit.Raises?)
  }

  /** What a pass does to one controller. */
  function Pass(c: Cell, goal: State, luck: Luck): Did
  {
    var actual := Actual(c);
    if actual == goal then Did(c, [], false)
    else match goal
      case RUNNING => ToRunning(c, actual, luck)
      case INITIALIZED => ToInitialized(c, actual, luck)
      case UNINITIALIZED => ToUninitialized(c, luck)
  }

  /** A pass reaches its goal exactly when the operations it has to attempt succeed: to leave
      the loop's states, stopping the thread; to enter them, initialising hardware that is
      down and starting a thread that is dead. */
  lemma PassReachesExactly(c: Cell, goal: State, luck: Luck)
    ensures Actual(Pass(c, goal, luck).cell) == goal <==>
            if goal.UNINITIALIZED? then Actual(c).UNINITIALIZED? || luck.stops
            else (c.hw || luck.init.Succeeds?) && (c.alive || luck.starts)
  {
  }

  /** From every combination of hardware flag, thread and pause, a pass whose operations
      succeed reaches the goal, and the next pass has nothing to do. */
  lemma PassConverges(c: Cell, goal: State, again: Luck)
    ensures var d := Pass(c, goal, GOOD);
            && Actual(d.cell) == goal && !d.raised
            && Pass(d.cell, goal, again) == Did(d.cell, [], false)
  {
  }

  /** The derived state hides initialised hardware behind a dead loop: a pass towards
      UNINITIALIZED takes the hardware down exactly when the thread is still alive, then
      stops, and the deinitialisation succeeds. */
  lemma HardwareLeftUpExactly(c: Cell, luck: Luck)
    ensures Pass(c, UNINITIALIZED, luck).cell.hw <==> c.hw && !(c.alive && luck.stops && luck.deinit.Succeeds?)
  {
  }

  /** One operation more. */
  lemma {:induction false} EffectsSnoc(c: Cell, es: seq<Effect>, e: Effect)
    ensures ReplayAll(c, es + [e]) == Replay(ReplayAll(c, es), e)
    ensures SafeAlong(c, es + [e]) <==> SafeAlong(c, es) && SafeIn(ReplayAll(c, es), e)
    decreases |es|
  {
    if es == [] {
      assert (es + [e])[1..] == [];
    } else {
      assert (es + [e])[1..] == es[1..] + [e];
      EffectsSnoc(Replay(c, es[0]), es[1..], e);
    }
  }

  /** The operations of a step are safe and lead where it leads. */
  ghost predicate Sound(c: Cell, d: Did, luck: Luck)
  {
    && SafeAlong(c, d.effects) && ReplayAll(c, d.effects) == d.cell
    && (d.raised <==> d.effects != [] && d.effects[|d.effects| - 1] in {InitHw(Raises), DeinitHw(Raises)})
    && forall e | e in d.effects :: Honest(e, luck)
  }

  lemma ToInitializedSound(c: Cell, luck: Luck)
    ensures Sound(c, ToInitialized(c, Actual(c), luck), luck)
  {
    hide SafeAlong, ReplayAll;
    NoEffects(c);
    EffectsSnoc(c, [], InitHw(luck.init));
    EffectsSnoc(c, [], PauseLoop);
    EffectsSnoc(c, [], StartLoop(luck.starts));
    EffectsSnoc(c, [InitHw(luck.init)], PauseLoop);
    EffectsSnoc(c, [InitHw(luck.init)], StartLoop(luck.starts));
    assert forall e: Effect :: [] + [e] == [e];
  }

  lemma NoEffects(c: Cell)
    ensures ReplayAll(c, []) == c && SafeAlong(c, [])
  {
  }

  lemma ToUninitializedSound(c: Cell, luck: Luck)
    ensures Sound(c, ToUninitialized(c, luck), luck)
  {
    hide SafeAlong, ReplayAll;
    NoEffects(c);
    EffectsSnoc(c, [], StopLoop(luck.stops));
    EffectsSnoc(c, [], DeinitHw(luck.deinit));
    EffectsSnoc(c, [StopLoop(luck.stops)], DeinitHw(luck.deinit));
    assert forall e: Effect :: [] + [e] == [e];
  }

  /** Whatever fails or raises: each operation of a pass is attempted in a state that allows it,
      hardware deinitialised only once the loop thread is dead and a loop started or resumed only
      over initialised hardware; and the operations, as they turned out, are what brings the
      controller from where it was to where the pass leaves it. A raise ends the pass. */
  lemma PassSafe(c: Cell, goal: State, luck: Luck)
    ensures Sound(c, Pass(c, goal, luck), luck)
  {
    hide SafeAlong, ReplayAll;
    NoEffects(c);
    ToUninitializedSound(c, luck);
    ToInitializedSound(c, luck);
    EffectsSnoc(c, [], ResumeLoop);
    EffectsSnoc(c, ToInitialized(c, Actual(c), luck).effects, ResumeLoop);
    assert [] + [ResumeLoop] == [ResumeLoop];
  }

  /** The operation turned out as it had to. */
  predicate Honest(e: Effect, luck: Luck)
  {
    match e
    case InitHw(out) => out == luck.init
    case DeinitHw(out) => out == luck.deinit
    case StartLoop(started) => started == luck.starts
    case StopLoop(stopped) => stopped == luck.stops
    case _ => true
  }

  /** A pass has cause for this operation: up, it initialises hardware that is down, starts a thread
      that is dead, pauses one that runs on over it or that shall only be initialised, and resumes what
      stands initialised; down, it stops the thread and deinitialises what it has then left. A failed
      operation leaves no cause for those after it. */
  predicate CausedBy(c: Cell, goal: State, luck: Luck, e: Effect)
  {
    var up := c.hw || luck.init.Succeeds?;
    && (goal.UNINITIALIZED? <==> e.StopLoop? || e.DeinitHw?)
    && Honest(e, luck)
    && match e
       case InitHw(_) => !c.hw
       case StartLoop(_) => !c.alive && up
       case PauseLoop => c.alive && up && (!c.hw || (goal.INITIALIZED? && !c.paused))
       case ResumeLoop => goal.RUNNING? && up && (if c.alive then !c.hw || c.paused else luck.starts)
       case StopLoop(_) => c.hw && c.alive
       case DeinitHw(_) => c.hw && c.alive && luck.stops
  }

  function Once(c: Cell, goal: State, luck: Luck, e: Effect): seq<Effect>
  {
    if CausedBy(c, goal, luck, e) then [e] else []
  }

  /** A pass attempts, once each and in this order, the operations it has cause for, and no other. */
  lemma PassAttemptsExactly(c: Cell, goal: State, luck: Luck)
    ensures Pass(c, goal, luck).effects
         == Once(c, goal, luck, StopLoop(luck.stops)) + Once(c, goal, luck, DeinitHw(luck.deinit))
          + Once(c, goal, luck, InitHw(luck.init)) + Once(c, goal, luck, StartLoop(luck.starts))
          + Once(c, goal, luck, PauseLoop) + Once(c, goal, luck, ResumeLoop)
  {
  }

  /** A pass never leaves a thread running unpaused over hardware that reads uninitialised,
      unless it found one. */
  lemma PassKeepsGuard(c: Cell, goal: State, luck: Luck)
    ensures var r := Pass(c, goal, luck).cell;
            r.alive && !r.paused && !r.hw ==> c.alive && !c.paused && !c.hw
  {
  }

  // ---------- Every run ----------

  /** What happens to one controller over time. Its goal changes, or a pass reaches it. Its job
      fails, which clears the hardware flag and asks the loop to stop; the request is then
      carried out, and the thread ends. A thread can also end by itself at any time. */
  datatype Happening = NewGoal(goal: State) | Visit(luck: Luck) | JobFails | JobStops | ThreadEnds

  /** `failing`: the live thread's job has failed, so the thread is about to end. */
  datatype Plant = Plant(cell: Cell, goal: State, failing: bool, effects: seq<Effect>)

  function Happen(p: Plant, h: Happening): Plant
  {
    match h
    case NewGoal(goal) => p.(goal := goal)
    case Visit(luck) =>
      var d := Pass(p.cell, p.goal, luck);
      p.(cell := d.cell, failing := p.failing && d.cell.alive, effects := p.effects + d.effects)
    case JobFails =>
      // the job returns at once when it finds the flag clear
      if p.cell.alive && p.cell.hw && !p.failing then p.(cell := p.cell.(hw := false), failing := true) else p
    case JobStops => if p.failing then p.(cell := p.cell.(paused := false)) else p
    case ThreadEnds => p.(cell := p.cell.(alive := false), failing := false)
  }

  function After(p: Plant, run: seq<Happening>): Plant
    decreases |run|
  {
    if run == [] then p else After(Happen(p, run[0]), run[1..])
  }

  /** A loop thread lives over hardware that reads uninitialised only while its own failure
      takes it down. */
  ghost predicate Guarded(p: Plant)
  {
    (p.cell.alive && !p.cell.hw ==> p.failing) && (p.failing ==> p.cell.alive)
  }

  /** Every visit of a run attempts only what the state of the moment allows, and what it attempts
      leads to the state it leaves. */
  ghost predicate SafeRun(p: Plant, run: seq<Happening>)
    decreases |run|
  {
    run != [] ==>
    && var r := Happen(p, run[0]);
       && p.effects <= r.effects
       && (run[0].Visit? ==>
             SafeAlong(p.cell, r.effects[|p.effects|..]) && ReplayAll(p.cell, r.effects[|p.effects|..]) == r.cell)
       && (!run[0].Visit? ==> r.effects == p.effects)
       && SafeRun(r, run[1..])
  }

  lemma HappenKeepsGuarded(p: Plant, h: Happening)
    requires Guarded(p)
    ensures Guarded(Happen(p, h))
  {
  }

  /** In every run of goals, passes with any outcome, failing jobs and ending threads: a live
      thread over uninitialised hardware is one whose job has just failed, and every effect is
      safe. So, but for a failing job, the derived state is UNINITIALIZED exactly when the thread
      is dead. */
  lemma {:induction false} RunGuarded(p: Plant, run: seq<Happening>)
    requires Guarded(p)
    ensures var r := After(p, run);
            Guarded(r) && (!r.failing ==> (Actual(r.cell).UNINITIALIZED? <==> !r.cell.alive)) && SafeRun(p, run)
    decreases |run|
  {
    if run != [] {
      HappenKeepsGuarded(p, run[0]);
      if run[0].Visit? {
        PassSafe(p.cell, p.goal, run[0].luck);
        assert Happen(p, run[0]).effects[|p.effects|..] == Pass(p.cell, p.goal, run[0].luck).effects;
      }
      RunGuarded(Happen(p, run[0]), run[1..]);
    }
  }

  /** From any situation in which no job is failing, one pass in which all succeeds reaches the
      goal of the moment, and no number of further passes, whatever their luck, changes anything
      until a new goal is set, the job fails or the thread ends. */
  lemma GoalHeld(p: Plant, later: seq<Happening>)
    requires !p.failing && forall i | 0 <= i < |later| :: later[i].Visit? || later[i].JobStops?
    ensures var r := Happen(p, Visit(GOOD)); Actual(r.cell) == p.goal && After(r, later) == r
  {
    PassConverges(p.cell, p.goal, GOOD);
    IdleAtGoal(Happen(p, Visit(GOOD)), later);
  }

  lemma {:induction false} IdleAtGoal(p: Plant, later: seq<Happening>)
    requires !p.failing && Actual(p.cell) == p.goal
    requires forall i | 0 <= i < |later| :: later[i].Visit? || later[i].JobStops?
    ensures After(p, later) == p
    decreases |later|
  {
    if later != [] {
      assert p.effects + [] == p.effects;
      IdleAtGoal(p, later[1..]);
    }
  }

  /** The goal a successful pass has reached survives the end of a failing thread exactly when
      it is UNINITIALIZED or no job was failing: a pass that meets a failing thread
      initialises its hardware again and takes the dying thread for a good one. */
  lemma FailingUndoesExactly(p: Plant)
    requires Guarded(p)
    ensures var r := Happen(p, Visit(GOOD));
            Actual((if r.failing then Happen(r, ThreadEnds) else r).cell) == p.goal
            <==> p.goal.UNINITIALIZED? || !p.failing
  {
    PassConverges(p.cell, p.goal, GOOD);
  }

  /** Hardware that is up without a loop thread, while the goal is UNINITIALIZED. */
  predicate Stranded(p: Plant) { p.goal.UNINITIALIZED? && p.cell.hw && !p.cell.alive }

  /** No pass takes stranded hardware down: nothing is attempted until a new goal is set. */
  lemma {:induction false} StrandedUntilNewGoal(p: Plant, run: seq<Happening>)
    requires Guarded(p) && Stranded(p)
    requires forall i | 0 <= i < |run| :: run[i].NewGoal? ==> run[i].goal.UNINITIALIZED?
    ensures Stranded(After(p, run)) && After(p, run).effects == p.effects
    decreases |run|
  {
    if run != [] {
      HappenKeepsGuarded(p, run[0]);
      StrandedUntilNewGoal(Happen(p, run[0]), run[1..]);
    }
  }

  /** A step strands hardware that was not stranded exactly when a goal of UNINITIALIZED meets
      a dead thread over live hardware: by the goal, by the end of the thread, or by a pass
      that stopped the thread and whose deinitialisation did not succeed. */
  lemma StrandedExactly(p: Plant, h: Happening)
    requires Guarded(p) && !Stranded(p)
    ensures Stranded(Happen(p, h)) <==>
            match h
            case NewGoal(goal) => goal.UNINITIALIZED? && p.cell.hw && !p.cell.alive
            case Visit(luck) =>
              p.goal.UNINITIALIZED? && Actual(p.cell) != UNINITIALIZED && luck.stops && !luck.deinit.Succeeds?
            case JobFails | JobStops => false
            case ThreadEnds => p.goal.UNINITIALIZED? && p.cell.alive && p.cell.hw
  {
  }

  // ---------- A pass over all controllers ----------

  datatype LoopState = LoopState(alive: bool, paused: bool)

  /** A managed controller: its loop's id, its goal, its hardware flag. */
  datatype Managed = Managed(loopId: int, goal: State, hw: bool)

  /** The controllers in order, and the loops. Controllers may share a loop. */
  datatype Fleet = Fleet(controllers: seq<Managed>, loops: map<int, LoopState>)
  {
    ghost predicate Valid() { forall i | 0 <= i < |controllers| :: controllers[i].loopId in loops }

    function CellOf(i: nat): Cell
      requires i < |controllers| && controllers[i].loopId in loops
    {
      var l := loops[controllers[i].loopId];
      Cell(controllers[i].hw, l.alive, l.paused)
    }

    function With(i: nat, c: Cell): Fleet
      requires i < |controllers|
    {
      Fleet(controllers[i := controllers[i].(hw := c.hw)],
            loops[controllers[i].loopId := LoopState(c.alive, c.paused)])
    }

    ghost predicate AtGoal(i: nat)
      requires Valid() && i < |controllers|
    {
      Actual(CellOf(i)) == controllers[i].goal
    }
  }

  /** Operations on a controller and its loop, marked with the controller's number. */
  function Tag(i: nat, es: seq<Effect>): (r: seq<(nat, Effect)>)
    ensures |r| == |es|
  {
    seq(|es|, j requires 0 <= j < |es| => (i, es[j]))
  }

  function ReplayFleet(f: Fleet, es: seq<(nat, Effect)>): (r: Fleet)
    requires f.Valid() && forall i | 0 <= i < |es| :: es[i].0 < |f.controllers|
    ensures r.Valid() && |r.controllers| == |f.controllers|
    decreases |es|
  {
    if es == [] then f else ReplayFleet(f.With(es[0].0, Replay(f.CellOf(es[0].0), es[0].1)), es[1..])
  }

  /** Each operation is attempted in a state in which it may be, whoever changed the loop last. */
  ghost predicate SafeFleet(f: Fleet, es: seq<(nat, Effect)>)
    requires f.Valid() && forall i | 0 <= i < |es| :: es[i].0 < |f.controllers|
    decreases |es|
  {
    es != [] ==>
    && SafeIn(f.CellOf(es[0].0), es[0].1)
    && SafeFleet(f.With(es[0].0, Replay(f.CellOf(es[0].0), es[0].1)), es[1..])
  }

  lemma {:induction false} FleetConcat(f: Fleet, a: seq<(nat, Effect)>, b: seq<(nat, Effect)>)
    requires f.Valid() && forall i | 0 <= i < |a + b| :: (a + b)[i].0 < |f.controllers|
    ensures (forall i | 0 <= i < |a| :: a[i].0 < |f.controllers|) && (forall i | 0 <= i < |b| :: b[i].0 < |f.controllers|)
    ensures ReplayFleet(f, a + b) == ReplayFleet(ReplayFleet(f, a), b)
    ensures SafeFleet(f, a + b) <==> SafeFleet(f, a) && SafeFleet(ReplayFleet(f, a), b)
    decreases |a|
  {
    assert forall i | 0 <= i < |a| :: a[i] == (a + b)[i];
    assert forall i | 0 <= i < |b| :: b[i] == (a + b)[|a| + i];
    if a == [] {
      assert a + b == b;
    } else {
      assert (a + b)[1..] == a[1..] + b;
      FleetConcat(f.With(a[0].0, Replay(f.CellOf(a[0].0), a[0].1)), a[1..], b);
    }
  }

  lemma {:induction false} TagReplays(f: Fleet, i: nat, es: seq<Effect>)
    requires f.Valid() && i < |f.controllers|
    ensures ReplayFleet(f, Tag(i, es)) == f.With(i, ReplayAll(f.CellOf(i), es))
    ensures SafeFleet(f, Tag(i, es)) <==> SafeAlong(f.CellOf(i), es)
    decreases |es|
  {
    if es == [] {
      assert f.With(i, f.CellOf(i)) == f;
    } else {
      hide Replay, SafeIn;
      assert Tag(i, es)[1..] == Tag(i, es[1..]);
      var c := Replay(f.CellOf(i), es[0]);
      TagReplays(f.With(i, c), i, es[1..]);
      WithWith(f, i, c, ReplayAll(c, es[1..]));
    }
  }

  lemma WithWith(f: Fleet, i: nat, c: Cell, d: Cell)
    requires f.Valid() && i < |f.controllers|
    ensures f.With(i, c).With(i, d) == f.With(i, d) && f.With(i, c).CellOf(i) == c
  {
  }

  /** The visits to the first |lucks| controllers, each in the state the ones before left. */
  function PassAll(f: Fleet, lucks: seq<Luck>): (r: (Fleet, seq<(nat, Effect)>))
    requires f.Valid() && |lucks| <= |f.controllers|
    ensures r.0.Valid() && |r.0.controllers| == |f.controllers|
    ensures forall i | 0 <= i < |f.controllers| ::
              && r.0.controllers[i].loopId == f.controllers[i].loopId
              && r.0.controllers[i].goal == f.controllers[i].goal
              && (i >= |lucks| ==> r.0.controllers[i] == f.controllers[i])
    ensures forall i | 0 <= i < |r.1| :: r.1[i].0 < |lucks|
  {
    if lucks == [] then (f, [])
    else
      var k := |lucks| - 1;
      var (g, effects) := PassAll(f, lucks[..k]);
      var d := Pass(g.CellOf(k), g.controllers[k].goal, lucks[k]);
      (g.With(k, d.cell), effects + Tag(k, d.effects))
  }

  /** Whatever fails or raises, and whatever loops are shared: each operation of a pass over all
      controllers is attempted in a state that allows it, and replaying the operations in order gives
      where the pass leaves every controller and loop. */
  lemma {:induction false} PassAllSafe(f: Fleet, lucks: seq<Luck>)
    requires f.Valid() && |lucks| <= |f.controllers|
    ensures var (g, es) := PassAll(f, lucks); SafeFleet(f, es) && ReplayFleet(f, es) == g
  {
    if lucks != [] {
      hide Pass, SafeAlong, ReplayAll;
      var k := |lucks| - 1;
      PassAllSafe(f, lucks[..k]);
      var (g, es) := PassAll(f, lucks[..k]);
      var d := Pass(g.CellOf(k), g.controllers[k].goal, lucks[k]);
      PassSafe(g.CellOf(k), g.controllers[k].goal, lucks[k]);
      TagReplays(g, k, d.effects);
      FleetConcat(f, es, Tag(k, d.effects));
    }
  }

  /** Every operation of the first k visits succeeds. */
  function AllGood(k: nat): seq<Luck> { seq(k, _ => GOOD) }

  /** The last of the first k controllers that has a say in this loop: it wants the loop up, or it
      has hardware to take down. */
  function LastWord(f: Fleet, loopId: int, k: nat): Option<Managed>
    requires k <= |f.controllers|
  {
    if k == 0 then None
    else
      var c := f.controllers[k - 1];
      if c.loopId == loopId && (c.goal != UNINITIALIZED || c.hw) then Some(c) else LastWord(f, loopId, k - 1)
  }

  /** Whether the loop is up once the first k controllers were visited. */
  predicate UpAfter(f: Fleet, loopId: int, k: nat)
    requires k <= |f.controllers| && loopId in f.loops
  {
    match LastWord(f, loopId, k)
    case Some(c) => c.goal != UNINITIALIZED
    case None => f.loops[loopId].alive
  }

  /** The loops after k good visits: up as the last word says, and paused as it wants. */
  ghost predicate LoopsTold(f: Fleet, k: nat, g: Fleet)
    requires k <= |f.controllers|
  {
    forall id | id in f.loops ::
      && id in g.loops && g.loops[id].alive == UpAfter(f, id, k)
      && (LastWord(f, id, k).Some? && UpAfter(f, id, k) ==>
            g.loops[id].paused == (LastWord(f, id, k).value.goal == INITIALIZED))
  }

  /** The hardware after k good visits: up where wanted; taken down elsewhere if it was visited
      while the loop was up. */
  ghost predicate HardwareTold(f: Fleet, k: nat, g: Fleet)
    requires f.Valid() && k <= |f.controllers| == |g.controllers|
  {
    forall i | 0 <= i < k ::
      g.controllers[i].hw ==
      (f.controllers[i].goal != UNINITIALIZED || (f.controllers[i].hw && !UpAfter(f, f.controllers[i].loopId, i)))
  }

  /** What a good visit does to a loop and its controller's hardware. */
  lemma GoodVisit(c: Cell, goal: State)
    ensures var r := Pass(c, goal, GOOD).cell;
            if goal != UNINITIALIZED then r == Cell(true, true, goal == INITIALIZED)
            else if c.hw && c.alive then !r.hw && !r.alive
            else r == c
  {
  }

  lemma VisitTells(f: Fleet, k: nat, g: Fleet)
    requires f.Valid() && g.Valid() && k < |f.controllers| == |g.controllers|
    requires LoopsTold(f, k, g) && HardwareTold(f, k, g) && g.controllers[k] == f.controllers[k]
    ensures var r := g.With(k, Pass(g.CellOf(k), g.controllers[k].goal, GOOD).cell);
            LoopsTold(f, k + 1, r) && HardwareTold(f, k + 1, r)
  {
    hide Pass;
    var c := f.controllers[k];
    GoodVisit(g.CellOf(k), c.goal);
    assert g.loops[c.loopId].alive == UpAfter(f, c.loopId, k);
  }

  lemma {:induction false} PassAllTells(f: Fleet, k: nat)
    requires f.Valid() && k <= |f.controllers|
    ensures var g := PassAll(f, AllGood(k)).0; LoopsTold(f, k, g) && HardwareTold(f, k, g)
  {
    if k > 0 {
      hide Pass, LoopsTold, HardwareTold;
      PassAllTells(f, k - 1);
      assert AllGood(k)[..k - 1] == AllGood(k - 1);
      VisitTells(f, k - 1, PassAll(f, AllGood(k - 1)).0);
    } else {
      assert AllGood(0) == [];
    }
  }

  /** When every operation of a pass succeeds, told from the order of the controllers, their goals
      and the flags the pass starts with: a controller that wants its loop up ends at its goal
      exactly when the last word on the loop agrees with it. One that wants it down does exactly
      when its hardware was down, or it was visited while the loop was up, or the loop ends down. */
  lemma GoalReachedExactly(f: Fleet, i: nat)
    requires f.Valid() && i < |f.controllers|
    ensures var n := |f.controllers|;
            var c := f.controllers[i];
            PassAll(f, AllGood(n)).0.AtGoal(i) <==>
            if c.goal != UNINITIALIZED then
              LastWord(f, c.loopId, n).Some? && LastWord(f, c.loopId, n).value.goal == c.goal
            else !c.hw || UpAfter(f, c.loopId, i) || !UpAfter(f, c.loopId, n)
  {
    hide PassAll;
    var n, c := |f.controllers|, f.controllers[i];
    PassAllTells(f, n);
    if c.goal != UNINITIALIZED { HasWord(f, i, n); }
  }

  lemma {:induction false} HasWord(f: Fleet, i: nat, k: nat)
    requires i < k <= |f.controllers| && (f.controllers[i].goal != UNINITIALIZED || f.controllers[i].hw)
    ensures LastWord(f, f.controllers[i].loopId, k).Some?
    decreases k
  {
    if k > i + 1 { HasWord(f, i, k - 1); }
  }

  /** Controllers of one loop want the same. */
  ghost predicate Agreeing(f: Fleet)
  {
    forall i, j | 0 <= i < |f.controllers| && 0 <= j < |f.controllers| ::
      f.controllers[i].loopId == f.controllers[j].loopId ==> f.controllers[i].goal == f.controllers[j].goal
  }

  lemma {:induction false} WordOfSome(f: Fleet, id: int, k: nat) returns (j: nat)
    requires k <= |f.controllers| && LastWord(f, id, k).Some?
    ensures j < k && f.controllers[j].loopId == id && LastWord(f, id, k) == Some(f.controllers[j])
  {
    j := k - 1;
    var c := f.controllers[j];
    if !(c.loopId == id && (c.goal != UNINITIALIZED || c.hw)) { j := WordOfSome(f, id, k - 1); }
  }

  /** So every controller ends at its goal where controllers that share a loop agree on the goal,
      as they do when each has a loop of its own. */
  lemma PassAllConverges(f: Fleet, i: nat)
    requires f.Valid() && Agreeing(f) && i < |f.controllers|
    ensures PassAll(f, AllGood(|f.controllers|)).0.AtGoal(i)
  {
    hide PassAll;
    var n, c := |f.controllers|, f.controllers[i];
    GoalReachedExactly(f, i);
    if c.goal != UNINITIALIZED || c.hw {
      HasWord(f, i, n);
      var j := WordOfSome(f, c.loopId, n);
    }
  }

  ghost predicate DistinctLoops(f: Fleet)
  {
    forall i, j | 0 <= i < j < |f.controllers| :: f.controllers[i].loopId != f.controllers[j].loopId
  }

  lemma WithChangesOne(f: Fleet, k: nat, c: Cell, i: nat)
    requires f.Valid() && DistinctLoops(f) && k < |f.controllers| && i < |f.controllers|
    ensures f.With(k, c).Valid() && f.With(k, c).CellOf(i) == if i == k then c else f.CellOf(i)
  {
  }

  /** Controllers with loops of their own do not influence each other: each ends as its own pass
      from the initial state would. */
  lemma {:induction false} PassAllIndependent(f: Fleet, lucks: seq<Luck>, i: nat)
    requires f.Valid() && DistinctLoops(f) && |lucks| <= |f.controllers| && i < |f.controllers|
    ensures PassAll(f, lucks).0.CellOf(i)
         == if i < |lucks| then Pass(f.CellOf(i), f.controllers[i].goal, lucks[i]).cell else f.CellOf(i)
    decreases |lucks|
  {
    if lucks != [] {
      hide Pass;
      var k := |lucks| - 1;
      PassAllIndependent(f, lucks[..k], i);
      PassAllIndependent(f, lucks[..k], k);
      var g := PassAll(f, lucks[..k]).0;
      WithChangesOne(g, k, Pass(g.CellOf(k), g.controllers[k].goal, lucks[k]).cell, i);
    }
  }

  // ---------- The reconciler object ----------

  /** i is the first controller of that loop. */
  ghost predicate IsFirst(s: seq<Managed>, loopId: int, i: nat)
    requires i < |s|
  {
    s[i].loopId == loopId && forall j | 0 <= j < i :: s[j].loopId != loopId
  }

  class HWControllerStateReconciler {
    var controllers: seq<Managed>
    var loops: map<int, LoopState>
    var log: seq<(nat, Effect)>

    /** Each controller's loop is registered. */
    ghost predicate Valid()
      reads this
    {
      View().Valid()
    }

    ghost function View(): Fleet
      reads this
    {
      Fleet(controllers, loops)
    }

    function CellOf(i: nat): Cell
      requires i < |controllers| && controllers[i].loopId in loops
      reads this
    {
      Fleet(controllers, loops).CellOf(i)
    }

    constructor ()
      ensures Valid() && controllers == [] && loops == map[] && log == []
    {
      controllers, loops, log := [], map[], [];
    }

    method AddController(loopId: int)
      requires Valid() && loopId in loops
      modifies this`controllers
      ensures Valid() && controllers == old(controllers) + [Managed(loopId, UNINITIALIZED, false)]
    {
      controllers := controllers + [Managed(loopId, UNINITIALIZED, false)];
    }

    method SetGoalAll(goal: State)
      requires Valid()
      modifies this`controllers
      ensures Valid() && |controllers| == |old(controllers)|
      ensures forall i | 0 <= i < |controllers| :: controllers[i] == old(controllers)[i].(goal := goal)
    {
      var i := 0;
      while i < |controllers|
        invariant 0 <= i <= |controllers| == |old(controllers)|
        invariant forall j | 0 <= j < i :: controllers[j] == old(controllers)[j].(goal := goal)
        invariant forall j | i <= j < |controllers| :: controllers[j] == old(controllers)[j]
      {
        controllers := controllers[i := controllers[i].(goal := goal)];
        i := i + 1;
      }
    }

    /** The first controller of that loop gets the goal; no other changes. */
    method SetGoal(loopId: int, goal: State)
      requires Valid()
      modifies this`controllers
      ensures Valid() && |controllers| == |old(controllers)|
      ensures forall i | 0 <= i < |controllers| ::
                controllers[i] == if IsFirst(old(controllers), loopId, i) then old(controllers)[i].(goal := goal)
                                  else old(controllers)[i]
    {
      var i := 0;
      while i < |controllers|
        invariant 0 <= i <= |controllers| && controllers == old(controllers)
        invariant forall j | 0 <= j < i :: controllers[j].loopId != loopId
      {
        if controllers[i].loopId == loopId {
          controllers := controllers[i := controllers[i].(goal := goal)];
          return;
        }
        i := i + 1;
      }
    }

    /** Reads as the state after `d` was done to controller i, with everything else unchanged. */
    twostate predicate Done(i: nat, d: Did)
      requires old(Valid()) && i < |old(controllers)|
      reads this
    {
      View() == old(View()).With(i, d.cell) && log == old(log) + Tag(i, d.effects)
    }

    method SetHw(i: nat, hw: bool)
      requires i < |controllers|
      modifies this`controllers
      ensures controllers == old(controllers)[i := old(controllers)[i].(hw := hw)]
    {
      controllers := controllers[i := controllers[i].(hw := hw)];
    }

    method StepToInitialized(i: nat, actual: State, luck: Luck) returns (raised: bool)
      requires Valid() && i < |controllers|
      modifies this
      ensures var d := ToInitialized(old(CellOf(i)), actual, luck); Done(i, d) && raised == d.raised
    {
      var id := controllers[i].loopId;
      raised := false;
      if actual == UNINITIALIZED {
        if !controllers[i].hw {
          log := log + [(i, InitHw(luck.init))];
          if luck.init == Raises { return true; }
          if luck.init == Fails { return false; }
          SetHw(i, true);
        }
        if !loops[id].alive {
          log := log + [(i, StartLoop(luck.starts))];
          loops := loops[id := LoopState(luck.starts, true)];
        } else {
          log := log + [(i, PauseLoop)];
          loops := loops[id := loops[id].(paused := true)];
        }
      } else if actual == RUNNING {
        log := log + [(i, PauseLoop)];
        loops := loops[id := loops[id].(paused := true)];
      }
    }

    method StepToRunning(i: nat, actual: State, luck: Luck) returns (raised: bool)
      requires Valid() && i < |controllers| && actual == Actual(CellOf(i))
      modifies this
      ensures var d := ToRunning(old(CellOf(i)), actual, luck); Done(i, d) && raised == d.raised
    {
      var id := controllers[i].loopId;
      raised := false;
      var now := actual;
      if actual == UNINITIALIZED {
        raised := StepToInitialized(i, actual, luck);
        if raised { return; }
        now := Actual(CellOf(i));
        if now != INITIALIZED { return; }
      }
      if now == INITIALIZED {
        log := log + [(i, ResumeLoop)];
        loops := loops[id := loops[id].(paused := false)];
      }
    }

    method StepToUninitialized(i: nat, luck: Luck) returns (raised: bool)
      requires Valid() && i < |controllers|
      modifies this
      ensures var d := ToUninitialized(old(CellOf(i)), luck); Done(i, d) && raised == d.raised
    {
      var id := controllers[i].loopId;
      raised := false;
      if loops[id].alive {
        log := log + [(i, StopLoop(luck.stops))];
        loops := loops[id := LoopState(!luck.stops, false)];
        if loops[id].alive { return; }
      }
      if controllers[i].hw {
        log := log + [(i, DeinitHw(luck.deinit))];
        raised := luck.deinit == Raises;
        if luck.deinit == Succeeds { SetHw(i, false); }
      }
    }

    method ReconcileOne(i: nat, luck: Luck)
      requires Valid() && i < |controllers|
      modifies this
      ensures Valid() && Done(i, Pass(old(CellOf(i)), old(controllers[i].goal), luck))
    {
      var actual, goal := Actual(CellOf(i)), controllers[i].goal;
      if actual == goal { return; }
      var raised;  // caught and signalled by the caller; the pass goes on with the next controller
      match goal
      case RUNNING => raised := StepToRunning(i, actual, luck);
      case INITIALIZED => raised := StepToInitialized(i, actual, luck);
      case UNINITIALIZED => raised := StepToUninitialized(i, luck);
    }

    /** One pass over all controllers, in order: the visits of `PassAll` and their effects. */
    method Reconcile(lucks: seq<Luck>)
      requires Valid() && |lucks| == |controllers|
      modifies this
      ensures Valid() && View() == PassAll(old(View()), lucks).0
      ensures log == old(log) + PassAll(old(View()), lucks).1
    {
      hide Pass;
      var i := 0;
      while i < |controllers|
        invariant 0 <= i <= |controllers| == |old(controllers)| && Valid()
        invariant View() == PassAll(old(View()), lucks[..i]).0
        invariant log == old(log) + PassAll(old(View()), lucks[..i]).1
      {
        assert lucks[..i + 1][..i] == lucks[..i];
        ReconcileOne(i, lucks[i]);
        i := i + 1;
      }
      assert lucks[..i] == lucks;
    }
  }
}

/**
 The one-session-at-a-time protocol of the session manager
 (session_manager.py and runner.py of the session_mng package).

 Any number of new_session calls run concurrently. Call i may create context i and start
 runner thread i. Each action below is one step that other calls and threads can interleave
 with. The creator works under the manager's lock; a runner thread's cleanup clears the
 active slot without it.
 */
module Sessions {
  import opened Options

  /** Where a new_session call is. From Locked to Abandoning it holds the lock. */
  datatype Pc =
    | Entry                // before the first look at the slot
    | Checked              // the slot was empty; criteria not yet evaluated
    | Admitted             // criteria met; resources not yet created
    | Created              // has a context; waits for the lock
    | Locked               // holds the lock; about to look at the slot again
    | Losing               // slot taken meanwhile; about to destroy the context
    | Starting             // slot empty; about to start the runner thread
    | Joining              // thread started; join(0.5) then is_alive()
    | Publishing           // is_alive() was true; about to fill the slot
    | Abandoning           // start failed or thread already dead; about to destroy the context
    | Returned(ok: bool)

  /** Where a runner thread is. */
  datatype Thread =
    | NotStarted
    | Running              // inside the session's run body
    | Cleaning             // callbacks that come before the manager's own
    | Destroyed(ok: bool)  // destroy_session has returned
    | Finishing            // past the manager's callback
    | Ended

  datatype Call = Call(pc: Pc, thread: Thread, created: bool, destroys: nat)

  datatype Manager = Manager(calls: seq<Call>, lock: Option<nat>, active: Option<nat>)

  datatype Action =
    | Check(i: nat)
    | Criteria(i: nat, met: bool)
    | Create(i: nat, ok: bool)
    | Acquire(i: nat)
    | Recheck(i: nat)
    | DestroyLost(i: nat)
    | StartThread(i: nat, ok: bool)
    | Join(i: nat)
    | Publish(i: nat)
    | Abandon(i: nat)
    | RunEnds(i: nat)               // returns or crashes
    | ThreadDestroys(i: nat, ok: bool)
    | ThreadClears(i: nat)
    | ThreadEnds(i: nat)

  predicate Holding(pc: Pc)
  {
    pc.Locked? || pc.Losing? || pc.Starting? || pc.Joining? || pc.Publishing? || pc.Abandoning?
  }

  ghost predicate Enabled(m: Manager, a: Action)
  {
    && a.i < |m.calls|
    && var c := m.calls[a.i];
       match a
       case Check(_) => c.pc.Entry? && m.lock.None?
       case Criteria(_, _) => c.pc.Checked?
       case Create(_, _) => c.pc.Admitted?
       case Acquire(_) => c.pc.Created? && m.lock.None?
       case Recheck(_) => c.pc.Locked?
       case DestroyLost(_) => c.pc.Losing?
       case StartThread(_, _) => c.pc.Starting?
       case Join(_) => c.pc.Joining?
       case Publish(_) => c.pc.Publishing?
       case Abandon(_) => c.pc.Abandoning?
       case RunEnds(_) => c.thread.Running?
       case ThreadDestroys(_, _) => c.thread.Cleaning?
       case ThreadClears(_) => c.thread.Destroyed?
       case ThreadEnds(_) => c.thread.Finishing?
  }

  function Step(m: Manager, a: Action): (r: Manager)
    requires a.i < |m.calls|
    ensures |r.calls| == |m.calls|
  {
    var c := m.calls[a.i];
    match a
    case Check(i) => m.(calls := m.calls[i := c.(pc := if m.active.None? then Checked else Returned(false))])
    case Criteria(i, met) => m.(calls := m.calls[i := c.(pc := if met then Admitted else Returned(false))])
    case Create(i, ok) =>
      m.(calls := m.calls[i := if ok then c.(pc := Created, created := true) else c.(pc := Returned(false))])
    case Acquire(i) => m.(lock := Some(i), calls := m.calls[i := c.(pc := Locked)])
    case Recheck(i) => m.(calls := m.calls[i := c.(pc := if m.active.None? then Starting else Losing)])
    case DestroyLost(i) =>
      m.(lock := None, calls := m.calls[i := c.(pc := Returned(false), destroys := c.destroys + 1)])
    case StartThread(i, ok) =>
      m.(calls := m.calls[i := if ok then c.(pc := Joining, thread := Running) else c.(pc := Abandoning)])
    case Join(i) => m.(calls := m.calls[i := c.(pc := if c.thread.Ended? then Abandoning else Publishing)])
    case Publish(i) => Manager(m.calls[i := c.(pc := Returned(true))], None, Some(i))
    case Abandon(i) =>
      m.(lock := None, calls := m.calls[i := c.(pc := Returned(false), destroys := c.destroys + 1)])
    case RunEnds(i) => m.(calls := m.calls[i := c.(thread := Cleaning)])
    case ThreadDestroys(i, ok) =>
      m.(calls := m.calls[i := c.(thread := Destroyed(ok), destroys := c.destroys + 1)])
    case ThreadClears(i) =>
      Manager(m.calls[i := c.(thread := Finishing)], m.lock,
              if c.thread.Destroyed? && c.thread.ok then None else m.active)
    case ThreadEnds(i) => m.(calls := m.calls[i := c.(thread := Ended)])
  }

  /** A fresh manager facing n calls. */
  function Init(n: nat): Manager
  {
    Manager(seq(n, _ => Call(Entry, NotStarted, false, 0)), None, None)
  }

  ghost predicate IsRun(m: Manager, run: seq<Action>)
    decreases |run|
  {
    run == [] || (Enabled(m, run[0]) && IsRun(Step(m, run[0]), run[1..]))
  }

  function After(m: Manager, run: seq<Action>): Manager
    requires IsRun(m, run)
    decreases |run|
  {
    if run == [] then m else After(Step(m, run[0]), run[1..])
  }

  // ---------- The invariant ----------

  /** The thread is in its run body, or may still clear the slot. */
  predicate Pending(t: Thread) { t.Running? || t.Cleaning? || t.Destroyed? }

  /** The call has not created its context yet. */
  predicate Before(pc: Pc) { pc.Entry? || pc.Checked? || pc.Admitted? }

  /** What holds of one call, given the lock and the slot. */
  ghost predicate CallInv(m: Manager, i: nat)
    requires i < |m.calls|
  {
    var c := m.calls[i];
    && (Holding(c.pc) <==> m.lock == Some(i))
    && (c.pc.Starting? || c.pc.Joining? || c.pc.Publishing? ==> m.active.None?)
    && (Pending(c.thread) ==> c.pc.Joining? || c.pc.Publishing? || m.active == Some(i))
    && (m.active == Some(i) ==> c.pc == Returned(true))
    && (Before(c.pc) || c.pc in {Created, Locked, Losing, Starting} ==> c.thread.NotStarted?)
    && (c.pc.Abandoning? || c.pc == Returned(false) ==> c.thread.NotStarted? || c.thread.Ended?)
    && (c.pc.Joining? || c.pc.Publishing? || c.pc == Returned(true) ==> !c.thread.NotStarted?)
    // contexts
    && (Before(c.pc) ==> !c.created)
    && (!c.thread.NotStarted? ==> c.created)
    && (!Before(c.pc) && c.pc != Returned(false) ==> c.created)
    && c.destroys == (if c.thread.Destroyed? || c.thread.Finishing? || c.thread.Ended? then 1 else 0)
                   + (if c.pc == Returned(false) && c.created then 1 else 0)
  }

  ghost predicate Inv(m: Manager)
  {
    && (forall i | 0 <= i < |m.calls| :: CallInv(m, i))
    && (m.active.Some? ==> m.active.value < |m.calls|)
    && (m.lock.Some? ==> m.lock.value < |m.calls|)
  }

  lemma StepKeepsOwn(m: Manager, a: Action)
    requires Inv(m) && Enabled(m, a)
    ensures CallInv(Step(m, a), a.i)
  {
    assert CallInv(m, a.i);
  }

  lemma StepKeepsOthers(m: Manager, a: Action, j: nat)
    requires Inv(m) && Enabled(m, a) && j < |m.calls| && j != a.i
    ensures CallInv(Step(m, a), j)
  {
    assert CallInv(m, a.i) && CallInv(m, j);
    assert Step(m, a).calls[j] == m.calls[j];
  }

  lemma StepKeepsInv(m: Manager, a: Action)
    requires Inv(m) && Enabled(m, a)
    ensures Inv(Step(m, a))
  {
    hide CallInv;
    StepKeepsOwn(m, a);
    forall j | 0 <= j < |m.calls| && j != a.i
      ensures CallInv(Step(m, a), j)
    {
      StepKeepsOthers(m, a, j);
    }
  }

  lemma {:induction false} RunKeepsInv(m: Manager, run: seq<Action>)
    requires Inv(m) && IsRun(m, run)
    ensures Inv(After(m, run))
    decreases |run|
  {
    if run != [] {
      StepKeepsInv(m, run[0]);
      RunKeepsInv(Step(m, run[0]), run[1..]);
    }
  }

  // ---------- Theorems over every interleaving ----------

  /** Two session run bodies never execute at the same time. */
  lemma MutualExclusion(n: nat, run: seq<Action>, i: nat, j: nat)
    requires IsRun(Init(n), run) && i < n && j < n
    ensures var m := After(Init(n), run);
            && |m.calls| == n
            && (m.calls[i].thread.Running? && m.calls[j].thread.Running? ==> i == j)
  {
    RunKeepsInv(Init(n), run);
    RunKeepsCalls(Init(n), run);
    var m := After(Init(n), run);
    assert CallInv(m, i) && CallInv(m, j);
  }

  lemma {:induction false} RunKeepsCalls(m: Manager, run: seq<Action>)
    requires IsRun(m, run)
    ensures |After(m, run).calls| == |m.calls|
    decreases |run|
  {
    if run != [] { RunKeepsCalls(Step(m, run[0]), run[1..]); }
  }

  /** The unlocked write of a runner's cleanup never clears the slot of another session. */
  lemma CleanupClearsOnlyItself(n: nat, run: seq<Action>, i: nat)
    requires IsRun(Init(n), run) && Enabled(After(Init(n), run), ThreadClears(i))
    ensures var m := After(Init(n), run);
            forall k :: m.active == Some(k) ==> k == i
  {
    RunKeepsInv(Init(n), run);
    assert CallInv(After(Init(n), run), i);
  }

  /** No context leaks: once the call has failed or the runner thread has ended, destroy was
      attempted. It was attempted twice exactly when the thread died before the call published it. */
  lemma NoContextLeaks(n: nat, run: seq<Action>, i: nat)
    requires IsRun(Init(n), run) && i < n
    ensures var m := After(Init(n), run);
            && |m.calls| == n
            && var c := m.calls[i];
               && (c.created && (c.pc == Returned(false) || c.thread.Ended?) ==> 1 <= c.destroys)
               && c.destroys <= 2
               && (c.destroys == 2 <==> c.pc == Returned(false) && c.thread.Ended?)
               && (c.destroys > 0 ==> c.created)
  {
    RunKeepsInv(Init(n), run);
    RunKeepsCalls(Init(n), run);
    assert CallInv(After(Init(n), run), i);
  }

  // ---------- Why a call fails and when it succeeds ----------

  /** One of the six tests of call i fails at this step: the slot is taken at the first or the second
      look, the criteria are not met, the resources or the thread cannot be made, or the thread is
      dead after the join. */
  predicate TestFails(m: Manager, a: Action, i: nat)
  {
    && a.i == i && i < |m.calls|
    && match a
       case Check(_) => m.active.Some?
       case Criteria(_, met) => !met
       case Create(_, ok) => !ok
       case Recheck(_) => m.active.Some?
       case StartThread(_, ok) => !ok
       case Join(_) => m.calls[i].thread.Ended?
       case _ => false
  }

  ghost predicate FailsAlong(m: Manager, run: seq<Action>, i: nat)
    requires IsRun(m, run)
    decreases |run|
  {
    run != [] && (TestFails(m, run[0], i) || FailsAlong(Step(m, run[0]), run[1..], i))
  }

  /** Some test of the call has failed: it has returned false or is about to. */
  predicate Failed(pc: Pc) { pc.Losing? || pc.Abandoning? || pc == Returned(false) }

  /** How far a call has come: the number of tests behind it that it has passed, 7 once published. */
  function Passed(pc: Pc): nat
  {
    match pc
    case Entry => 0
    case Checked => 1
    case Admitted => 2
    case Created | Locked => 3
    case Starting => 4
    case Joining => 5
    case Publishing => 6
    case _ => 7
  }

  /** What this step adds to the tests call i has passed. */
  predicate TestPasses(m: Manager, a: Action, i: nat)
  {
    a.i == i && (a.Check? || a.Criteria? || a.Create? || a.Recheck? || a.StartThread? || a.Join?) && !TestFails(m, a, i)
  }

  ghost function PassesAlong(m: Manager, run: seq<Action>, i: nat): nat
    requires IsRun(m, run)
    decreases |run|
  {
    if run == [] then 0 else (if TestPasses(m, run[0], i) then 1 else 0) + PassesAlong(Step(m, run[0]), run[1..], i)
  }

  lemma TestStep(m: Manager, a: Action, i: nat)
    requires Enabled(m, a) && i < |m.calls|
    ensures var c, r := m.calls[i], Step(m, a).calls[i];
            && (Failed(r.pc) <==> Failed(c.pc) || TestFails(m, a, i))
            && (!Failed(r.pc) ==> TestPasses(m, a, i) || a == Publish(i) || Passed(r.pc) == Passed(c.pc))
            && (!Failed(r.pc) && TestPasses(m, a, i) ==> Passed(r.pc) == Passed(c.pc) + 1 <= 6)
            && (a == Publish(i) ==> Passed(c.pc) == 6 && r.pc == Returned(true))
            && (r.pc == Returned(true) ==> c.pc == Returned(true) || a == Publish(i))
  {
  }

  /** Along every run: a call has failed, or is about to, exactly when one of its six tests failed;
      and it succeeds only after passing all six. */
  lemma {:induction false} TestsDecide(m: Manager, run: seq<Action>, i: nat)
    requires IsRun(m, run) && i < |m.calls| && m.calls[i].pc != Returned(true)
    ensures var r := After(m, run);
            && |r.calls| == |m.calls|
            && (Failed(r.calls[i].pc) <==> Failed(m.calls[i].pc) || FailsAlong(m, run, i))
            && (r.calls[i].pc == Returned(true) ==> Passed(m.calls[i].pc) + PassesAlong(m, run, i) == 6)
    decreases |run|
  {
    if run != [] {
      hide Step, Enabled, TestFails, TestPasses;
      var k := Step(m, run[0]);
      TestStep(m, run[0], i);
      if k.calls[i].pc == Returned(true) {
        StaysReturned(k, run[1..], i);
      } else {
        TestsDecide(k, run[1..], i);
      }
    }
  }

  /** A call that has returned takes no further step. */
  lemma {:induction false} StaysReturned(m: Manager, run: seq<Action>, i: nat)
    requires IsRun(m, run) && i < |m.calls| && m.calls[i].pc.Returned?
    ensures var r := After(m, run);
            && |r.calls| == |m.calls| && r.calls[i].pc == m.calls[i].pc && r.calls[i].created == m.calls[i].created
            && !FailsAlong(m, run, i) && PassesAlong(m, run, i) == 0
    decreases |run|
  {
    if run != [] { StaysReturned(Step(m, run[0]), run[1..], i); }
  }

  /** In every interleaving from the start: new_session fails exactly when one of its six tests does,
      and succeeds only after all six: slot empty, criteria met, resources created, slot still empty,
      thread started, and thread alive at the join. */
  lemma NewSessionExactly(n: nat, run: seq<Action>, i: nat)
    requires IsRun(Init(n), run) && i < n
    ensures var m := After(Init(n), run);
            && |m.calls| == n
            && (Failed(m.calls[i].pc) <==> FailsAlong(Init(n), run, i))
            && (m.calls[i].pc == Returned(true) ==> PassesAlong(Init(n), run, i) == 6 && !FailsAlong(Init(n), run, i))
  {
    TestsDecide(Init(n), run, i);
  }

  /** In particular, a call whose criteria are not met returns false at once and for good, having
      created, started and destroyed nothing. */
  lemma UnmetCriteriaRefuse(n: nat, before: seq<Action>, i: nat, later: seq<Action>)
    requires IsRun(Init(n), before) && i < n && Enabled(After(Init(n), before), Criteria(i, false))
    requires IsRun(Step(After(Init(n), before), Criteria(i, false)), later)
    ensures var r := After(Step(After(Init(n), before), Criteria(i, false)), later);
            && |r.calls| == n && r.calls[i] == Call(Returned(false), NotStarted, false, 0)
  {
    RunKeepsInv(Init(n), before);
    RunKeepsCalls(Init(n), before);
    var m := After(Init(n), before);
    assert CallInv(m, i);
    StepKeepsInv(m, Criteria(i, false));
    StaysOut(Step(m, Criteria(i, false)), later, i);
  }

  lemma {:induction false} StaysOut(m: Manager, run: seq<Action>, i: nat)
    requires IsRun(m, run) && i < |m.calls| && m.calls[i] == Call(Returned(false), NotStarted, false, 0)
    ensures |After(m, run).calls| == |m.calls| && After(m, run).calls[i] == m.calls[i]
    decreases |run|
  {
    if run != [] { StaysOut(Step(m, run[0]), run[1..], i); }
  }

  /** A call on its own whose tests all pass does succeed, and its session fills the slot. */
  lemma AloneSucceeds() returns (run: seq<Action>)
    ensures IsRun(Init(1), run)
    ensures After(Init(1), run) == Manager([Call(Returned(true), Running, true, 0)], None, Some(0))
  {
    hide IsRun, After;
    run := JoiningReachable();
    var m := Manager([Call(Joining, Running, true, 0)], Some(0), None);
    run, m := Extend(run, m, Join(0));
    run, m := Extend(run, m, Publish(0));
  }

  // ---------- The slot can be lost ----------

  /** The slot names a session whose thread will never clear it. */
  ghost predicate SlotLost(m: Manager)
  {
    m.active.Some? && m.active.value < |m.calls| &&
    var t := m.calls[m.active.value].thread; t.Finishing? || t.Ended?
  }

  /** The two losing steps: publishing a thread whose cleanup has already passed the slot but
      which is, or was a moment ago, alive; and a cleanup whose destroy failed. */
  predicate Loses(m: Manager, a: Action)
    requires a.i < |m.calls|
  {
    || (a.Publish? && (m.calls[a.i].thread.Finishing? || m.calls[a.i].thread.Ended?))
    || (a.ThreadClears? && m.calls[a.i].thread == Destroyed(false) && m.active == Some(a.i))
  }

  /** Some step of the run is a losing one. */
  ghost predicate LosesAlong(m: Manager, run: seq<Action>)
    requires IsRun(m, run)
    decreases |run|
  {
    run != [] && (Loses(m, run[0]) || LosesAlong(Step(m, run[0]), run[1..]))
  }

  /** A run ends with the slot lost exactly when some step of it was a losing one. */
  lemma {:induction false} SlotLostRunExactly(m: Manager, run: seq<Action>)
    requires Inv(m) && !SlotLost(m) && IsRun(m, run)
    ensures SlotLost(After(m, run)) <==> LosesAlong(m, run)
    decreases |run|
  {
    if run != [] {
      hide Inv, SlotLost;
      StepKeepsInv(m, run[0]);
      SlotLostExactly(m, run[0]);
      if Loses(m, run[0]) {
        SlotLostForever(Step(m, run[0]), run[1..]);
      } else {
        SlotLostRunExactly(Step(m, run[0]), run[1..]);
      }
    }
  }

  lemma SlotLostExactly(m: Manager, a: Action)
    requires Inv(m) && Enabled(m, a) && !SlotLost(m)
    ensures SlotLost(Step(m, a)) <==> Loses(m, a)
  {
    assert CallInv(m, a.i);
    if m.active.Some? { assert CallInv(m, m.active.value); }
  }

  /** From then on every new_session call fails, in every continuation. */
  lemma {:induction false} SlotLostForever(m: Manager, run: seq<Action>)
    requires Inv(m) && SlotLost(m) && IsRun(m, run)
    ensures var r := After(m, run);
            && SlotLost(r) && r.active == m.active && |r.calls| == |m.calls|
            && forall i | 0 <= i < |m.calls| :: r.calls[i].pc == Returned(true) ==> m.calls[i].pc == Returned(true)
    decreases |run|
  {
    if run != [] {
      StepKeepsInv(m, run[0]);
      SlotLostStep(m, run[0]);
      SlotLostForever(Step(m, run[0]), run[1..]);
    }
  }

  lemma SlotLostStep(m: Manager, a: Action)
    requires Inv(m) && SlotLost(m) && Enabled(m, a)
    ensures var r := Step(m, a);
            && SlotLost(r) && r.active == m.active
            && forall i | 0 <= i < |m.calls| :: r.calls[i].pc == Returned(true) ==> m.calls[i].pc == Returned(true)
  {
    assert CallInv(m, a.i) && CallInv(m, m.active.value);
  }

  /** A call on its own gets as far as waiting for its thread. */
  lemma JoiningReachable() returns (run: seq<Action>)
    ensures IsRun(Init(1), run) && After(Init(1), run) == Manager([Call(Joining, Running, true, 0)], Some(0), None)
  {
    hide IsRun, After;
    var m := Init(1);
    assert m == Manager([Call(Entry, NotStarted, false, 0)], None, None);
    run := EmptyRun(m);
    run, m := Extend(run, m, Check(0));
    run, m := Extend(run, m, Criteria(0, true));
    run, m := Extend(run, m, Create(0, true));
    run, m := Extend(run, m, Acquire(0));
    run, m := Extend(run, m, Recheck(0));
    run, m := Extend(run, m, StartThread(0, true));
  }

  /** A session that ends while new_session still waits for its thread loses the slot. */
  lemma SlotLostReachable() returns (run: seq<Action>)
    ensures IsRun(Init(1), run) && SlotLost(After(Init(1), run))
  {
    hide IsRun, After;
    run := JoiningReachable();
    var m := Manager([Call(Joining, Running, true, 0)], Some(0), None);
    run, m := Extend(run, m, RunEnds(0));
    run, m := Extend(run, m, ThreadDestroys(0, true));
    run, m := Extend(run, m, ThreadClears(0));
    run, m := Extend(run, m, Join(0));
    run, m := Extend(run, m, Publish(0));
  }

  lemma EmptyRun(m: Manager) returns (run: seq<Action>)
    ensures IsRun(m, run) && After(m, run) == m
  {
    run := [];
  }

  /** One more step at the end of a run of a manager that faces one call. */
  lemma Extend(run: seq<Action>, m: Manager, a: Action) returns (longer: seq<Action>, next: Manager)
    requires IsRun(Init(1), run) && After(Init(1), run) == m && Enabled(m, a)
    ensures IsRun(Init(1), longer) && After(Init(1), longer) == next == Step(m, a)
  {
    longer, next := run + [a], Step(m, a);
    Snoc(Init(1), run, a);
  }

  lemma {:induction false} Snoc(m: Manager, run: seq<Action>, a: Action)
    requires IsRun(m, run) && Enabled(After(m, run), a)
    ensures IsRun(m, run + [a]) && After(m, run + [a]) == Step(After(m, run), a)
    decreases |run|
  {
    hide Step;
    if run == [] {
      assert run + [a] == [a] && [a][1..] == [];
    } else {
      Snoc(Step(m, run[0]), run[1..], a);
      assert (run + [a])[1..] == run[1..] + [a];
    }
  }
}

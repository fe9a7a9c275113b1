/**
 The behavior engine (libs/behavior_engine): a registry of named behaviors, an executor that
 steps running instances in priority order, and the table of what is running.

 Instances are objects that the executor list and the running table share; they live in a
 store and are named by their number of creation. Time is in seconds.
 */
module Behaviors {
  import opened Options

  datatype Instance = Instance(priority: int, sleepUntil: real, done: bool)

  /** A registered behavior. `iterates`: does calling it return an iterator, as it must? */
  datatype Entry = Entry(iterates: bool, borrowed: bool)

  /** An instance was advanced. */
  datatype Event = Stepped(id: nat, at: real)

  datatype Engine = Engine(
    entries: map<string, Entry>,
    store: seq<Instance>,          // every instance ever created
    behaviors: seq<nat>,           // the executor's list
    running: map<string, nat>,
    log: seq<Event>)

  const EMPTY := Engine(map[], [], [], map[], [])

  /** What a generator does when advanced; Exhausted is StopIteration. */
  datatype Act = Nothing | Continue | StopIt | Sleep(seconds: real) | Tick | Exhausted

  datatype Op =
    | Load(name: string, iterates: bool)
    | Play(name: string, priority: int)
    | Stop(name: string)
    | Advance(now: real, acts: nat -> Act)

  datatype Outcome = Done | KeyError | AlreadyBorrowed | TypeError

  // ---------- The executor list ----------

  predicate Ids(store: seq<Instance>, q: seq<nat>) { forall i | 0 <= i < |q| :: q[i] < |store| }

  /** Where list.sort puts x when the rest is sorted: after every element of its priority. */
  function InsertLast(store: seq<Instance>, q: seq<nat>, x: nat): (r: seq<nat>)
    requires Ids(store, q) && x < |store|
    ensures Ids(store, r) && |r| == |q| + 1
  {
    if q == [] || store[q[|q| - 1]].priority <= store[x].priority then q + [x]
    else InsertLast(store, q[..|q| - 1], x) + [q[|q| - 1]]
  }

  /** The stable sort by priority. */
  function StableSort(store: seq<Instance>, q: seq<nat>): (r: seq<nat>)
    requires Ids(store, q)
    ensures Ids(store, r) && |r| == |q|
  {
    if q == [] then [] else InsertLast(store, StableSort(store, q[..|q| - 1]), q[|q| - 1])
  }

  /** x comes before y: by priority, then by arrival. */
  predicate Before(store: seq<Instance>, x: nat, y: nat)
    requires x < |store| && y < |store|
  {
    store[x].priority < store[y].priority || (store[x].priority == store[y].priority && x < y)
  }

  ghost predicate Ordered(store: seq<Instance>, q: seq<nat>)
  {
    Ids(store, q) && forall i, j | 0 <= i < j < |q| :: Before(store, q[i], q[j])
  }

  lemma {:induction false} SortOfOrdered(store: seq<Instance>, q: seq<nat>)
    requires Ordered(store, q)
    ensures StableSort(store, q) == q
  {
    if q != [] {
      SortOfOrdered(store, q[..|q| - 1]);
      assert q == q[..|q| - 1] + [q[|q| - 1]];
    }
  }

  lemma {:induction false} InsertMembers(store: seq<Instance>, q: seq<nat>, x: nat)
    requires Ids(store, q) && x < |store|
    ensures forall y :: y in InsertLast(store, q, x) <==> y in q || y == x
  {
    if q != [] && store[q[|q| - 1]].priority > store[x].priority {
      InsertMembers(store, q[..|q| - 1], x);
      assert q == q[..|q| - 1] + [q[|q| - 1]];
    }
  }

  lemma OrderedSnoc(store: seq<Instance>, q: seq<nat>, z: nat)
    requires Ordered(store, q) && z < |store| && forall y | y in q :: y < |store| && Before(store, y, z)
    ensures Ordered(store, q + [z])
  {
    var r := q + [z];
    forall i, j | 0 <= i < j < |r| ensures Before(store, r[i], r[j]) {
      assert r[i] in q;
    }
  }

  lemma {:induction false} InsertOrdered(store: seq<Instance>, q: seq<nat>, x: nat)
    requires Ordered(store, q) && x < |store| && forall y | y in q :: y < x
    ensures Ordered(store, InsertLast(store, q, x))
  {
    if q == [] {
    } else {
      var p, z := q[..|q| - 1], q[|q| - 1];
      assert z in q && forall y | y in p :: y in q;
      if store[z].priority <= store[x].priority {
        OrderedSnoc(store, q, x);
      } else {
        InsertOrdered(store, p, x);
        InsertMembers(store, p, x);
        OrderedSnoc(store, InsertLast(store, p, x), z);
      }
    }
  }

  /** Appending the newest instance and sorting keeps the order. */
  lemma AddKeepsOrder(store: seq<Instance>, q: seq<nat>, x: nat)
    requires Ordered(store, q) && x < |store| && forall y | y in q :: y < x
    ensures var r := StableSort(store, q + [x]);
            Ordered(store, r) && forall y :: y in r <==> y in q || y == x
  {
    assert (q + [x])[..|q|] == q;
    SortOfOrdered(store, q);
    InsertOrdered(store, q, x);
    InsertMembers(store, q, x);
  }

  /** list.remove, when x occurs at most once. */
  function Remove(q: seq<nat>, x: nat): (r: seq<nat>)
    ensures |r| <= |q|
  {
    if q == [] then [] else if q[0] == x then q[1..] else [q[0]] + Remove(q[1..], x)
  }

  lemma {:induction false} RemoveKeepsOrder(store: seq<Instance>, q: seq<nat>, x: nat)
    requires Ordered(store, q)
    ensures var r := Remove(q, x);
            Ordered(store, r) && forall y :: y in r <==> y in q && y != x
    decreases |q|
  {
    if q != [] {
      assert q == [q[0]] + q[1..];
      if q[0] != x {
        RemoveKeepsOrder(store, q[1..], x);
        var r := Remove(q[1..], x);
        forall j | 0 <= j < |r| ensures Before(store, q[0], r[j]) {
          assert r[j] in q[1..];
        }
      }
    }
  }

  // ---------- Operations ----------

  function DoPlay(e: Engine, name: string, priority: int): (Engine, Outcome)
    requires Ids(e.store, e.behaviors)
  {
    if name !in e.entries then (e, KeyError)
    else if e.entries[name].borrowed then (e, AlreadyBorrowed)
    else
      var borrowed := e.(entries := e.entries[name := e.entries[name].(borrowed := true)]);
      if !e.entries[name].iterates then (borrowed, TypeError)
      else
        var id, store := |e.store|, e.store + [Instance(priority, 0.0, false)];
        var behaviors := StableSort(store, e.behaviors + [id]);
        (borrowed.(store := store, behaviors := behaviors, running := e.running[name := id]), Done)
  }

  function Release(entries: map<string, Entry>, names: set<string>): map<string, Entry>
  {
    map n | n in entries :: if n in names then entries[n].(borrowed := false) else entries[n]
  }

  function DoStop(e: Engine, name: string): Engine
  {
    if name !in e.running then e
    else
      e.(running := e.running - {name},
         behaviors := Remove(e.behaviors, e.running[name]),
         entries := Release(e.entries, {name}))
  }

  function Max(x: real, y: real): real { if x >= y then x else y }

  /** One instance's share of a tick: step, handle_action, removal when done. */
  function StepOne(e: Engine, id: nat, now: real, act: Act): (r: Engine)
    requires id < |e.store|
  {
    var b := e.store[id];
    if b.done || now < b.sleepUntil then e
    else
      var s := e.(log := e.log + [Stepped(id, now)]);
      match act
      case Nothing | Continue | Tick => s
      case StopIt | Exhausted => s.(store := e.store[id := b.(done := true)], behaviors := Remove(e.behaviors, id))
      case Sleep(seconds) =>
        s.(store := e.store[id := b.(sleepUntil := Max(0.0, now) + seconds)])
  }

  /** The executor's loop over its snapshot. */
  function StepAll(e: Engine, snapshot: seq<nat>, now: real, acts: nat -> Act): (r: Engine)
    requires Ids(e.store, snapshot)
    ensures |r.store| == |e.store|
    decreases |snapshot|
  {
    if snapshot == [] then e
    else StepAll(StepOne(e, snapshot[0], now, acts(snapshot[0])), snapshot[1..], now, acts)
  }

  /** Names whose instance is done or no longer in the executor. */
  function Finished(e: Engine): set<string>
    requires forall n | n in e.running :: e.running[n] < |e.store|
  {
    set n | n in e.running && (e.store[e.running[n]].done || e.running[n] !in e.behaviors)
  }

  function DoTick(e: Engine, now: real, acts: nat -> Act): Engine
    requires Ids(e.store, e.behaviors) && forall n | n in e.running :: e.running[n] < |e.store|
  {
    StepAllKeepsRunning(e, e.behaviors, now, acts);
    var s := StepAll(e, e.behaviors, now, acts);
    var gone := Finished(s);
    s.(running := s.running - gone, entries := Release(s.entries, gone))
  }

  lemma {:induction false} StepAllKeepsRunning(e: Engine, snapshot: seq<nat>, now: real, acts: nat -> Act)
    requires Ids(e.store, snapshot)
    ensures var s := StepAll(e, snapshot, now, acts); s.running == e.running && s.entries == e.entries
    decreases |snapshot|
  {
    if snapshot != [] {
      StepAllKeepsRunning(StepOne(e, snapshot[0], now, acts(snapshot[0])), snapshot[1..], now, acts);
    }
  }

  function Apply(e: Engine, op: Op): Engine
    requires Ids(e.store, e.behaviors) && forall n | n in e.running :: e.running[n] < |e.store|
  {
    match op
    case Load(name, iterates) =>
      if name in e.entries then e else e.(entries := e.entries[name := Entry(iterates, false)])
    case Play(name, priority) => DoPlay(e, name, priority).0
    case Stop(name) => DoStop(e, name)
    case Advance(now, acts) => DoTick(e, now, acts)
  }

  // ---------- The three tables agree ----------

  /** The running table is a bijection onto the executor list, over borrowed entries. */
  ghost predicate Linked(e: Engine)
  {
    && (forall n | n in e.running :: n in e.entries && e.entries[n].borrowed && e.running[n] in e.behaviors)
    && (forall n, m | n in e.running && m in e.running && n != m :: e.running[n] != e.running[m])
    && (forall x | x in e.behaviors :: exists n :: n in e.running && e.running[n] == x)
  }

  ghost predicate Inv(e: Engine)
  {
    && Ordered(e.store, e.behaviors)
    && Linked(e)
    && (forall x | x in e.behaviors :: x < |e.store| && !e.store[x].done)
  }

  lemma PlayKeepsLinked(e: Engine, r: Engine, name: string, id: nat)
    requires Linked(e) && name !in e.running && id !in e.behaviors && name in r.entries && r.entries[name].borrowed
    requires r.running == e.running[name := id] && forall y :: y in r.behaviors <==> y in e.behaviors || y == id
    requires forall n | n in e.entries && n != name :: n in r.entries && r.entries[n] == e.entries[n]
    ensures Linked(r)
  {
    forall x | x in r.behaviors ensures exists n :: n in r.running && r.running[n] == x {
      if x == id {
        assert r.running[name] == id;
      } else {
        var n :| n in e.running && e.running[n] == x;
        assert n in r.running && r.running[n] == x;
      }
    }
  }

  lemma PlayKeepsInv(e: Engine, name: string, priority: int)
    requires Inv(e)
    ensures Inv(DoPlay(e, name, priority).0)
  {
    hide StableSort;
    var (r, out) := DoPlay(e, name, priority);
    if out.Done? {
      assert Ordered(r.store, e.behaviors);
      AddKeepsOrder(r.store, e.behaviors, |e.store|);
      PlayKeepsLinked(e, r, name, |e.store|);
    }
  }

  lemma StopKeepsInv(e: Engine, name: string)
    requires Inv(e)
    ensures Inv(DoStop(e, name))
  {
    if name in e.running {
      var r := DoStop(e, name);
      RemoveKeepsOrder(e.store, e.behaviors, e.running[name]);
      forall x | x in r.behaviors ensures exists n :: n in r.running && r.running[n] == x {
        var n :| n in e.running && e.running[n] == x;
        assert n in r.running;
      }
    }
  }

  /** During a tick finished instances have left the list but not yet the running table. */
  ghost predicate TickInv(e: Engine, s: Engine)
  {
    && s.entries == e.entries && s.running == e.running && |s.store| == |e.store|
    && Ordered(s.store, s.behaviors)
    && (forall x | x in s.behaviors :: x in e.behaviors && x < |s.store| && !s.store[x].done)
    && (forall x | x in e.behaviors && x !in s.behaviors :: x < |s.store| && s.store[x].done)
  }

  lemma SamePriorities(store: seq<Instance>, store': seq<Instance>, q: seq<nat>)
    requires Ordered(store, q) && |store| == |store'|
    requires forall x | 0 <= x < |store| :: store'[x].priority == store[x].priority
    ensures Ordered(store', q)
  {
    forall i, j | 0 <= i < j < |q| ensures Before(store', q[i], q[j]) {
      assert Before(store, q[i], q[j]);
    }
  }

  lemma StepOneKeeps(e: Engine, s: Engine, id: nat, now: real, act: Act)
    requires TickInv(e, s) && id in e.behaviors && id < |s.store|
    ensures TickInv(e, StepOne(s, id, now, act))
  {
    var r := StepOne(s, id, now, act);
    RemoveKeepsOrder(s.store, s.behaviors, id);
    hide Ordered, Remove;
    SamePriorities(s.store, r.store, r.behaviors);
  }

  lemma {:induction false} StepAllKeeps(e: Engine, s: Engine, snapshot: seq<nat>, now: real, acts: nat -> Act)
    requires TickInv(e, s) && Ids(s.store, snapshot) && forall x | x in snapshot :: x in e.behaviors
    ensures TickInv(e, StepAll(s, snapshot, now, acts))
    decreases |snapshot|
  {
    if snapshot != [] {
      assert snapshot[0] in snapshot;
      StepOneKeeps(e, s, snapshot[0], now, acts(snapshot[0]));
      StepAllKeeps(e, StepOne(s, snapshot[0], now, acts(snapshot[0])), snapshot[1..], now, acts);
    }
  }

  lemma TickKeepsInv(e: Engine, now: real, acts: nat -> Act)
    requires Inv(e)
    ensures Inv(DoTick(e, now, acts))
  {
    StepAllKeeps(e, e, e.behaviors, now, acts);
    var s := StepAll(e, e.behaviors, now, acts);
    var r := DoTick(e, now, acts);
    forall x | x in r.behaviors ensures exists n :: n in r.running && r.running[n] == x {
      var n :| n in e.running && e.running[n] == x;
      assert n in r.running;
    }
  }

  lemma ApplyKeepsInv(e: Engine, op: Op)
    requires Inv(e)
    ensures Inv(Apply(e, op))
  {
    match op
    case Load(_, _) =>
    case Play(name, priority) => PlayKeepsInv(e, name, priority);
    case Stop(name) => StopKeepsInv(e, name);
    case Advance(now, acts) => TickKeepsInv(e, now, acts);
  }

  function After(e: Engine, ops: seq<Op>): (r: Engine)
    requires Inv(e)
    ensures Inv(r)
    decreases |ops|
  {
    if ops == [] then e
    else
      ApplyKeepsInv(e, ops[0]);
      After(Apply(e, ops[0]), ops[1..])
  }

  /** Through every sequence of operations: a running name is a borrowed entry whose instance
      is in the executor, each instance in the executor belongs to exactly one running name and
      is not done, and the list is ordered by priority and, within a priority, by arrival. */
  lemma TablesAgree(ops: seq<Op>)
    ensures var e := After(EMPTY, ops);
            && (forall n | n in e.running :: n in e.entries && e.entries[n].borrowed && e.running[n] in e.behaviors)
            && (forall n, m | n in e.running && m in e.running && n != m :: e.running[n] != e.running[m])
            && (forall x | x in e.behaviors ::
                  x < |e.store| && !e.store[x].done && exists n :: n in e.running && e.running[n] == x)
            && (forall i, j | 0 <= i < j < |e.behaviors| ::
                  e.behaviors[i] < |e.store| && e.behaviors[j] < |e.store| &&
                  Before(e.store, e.behaviors[i], e.behaviors[j]))
  {
    var e := After(EMPTY, ops);
    assert Linked(e) && Ordered(e.store, e.behaviors);
  }

  // ---------- Borrowed means running, exactly when ----------

  /** Every borrowed entry is running. */
  ghost predicate NoneLeaked(e: Engine)
  {
    forall n | n in e.entries && e.entries[n].borrowed :: n in e.running
  }

  /** A play that borrows the entry and then finds that the behavior returns no iterator. */
  predicate BadPlay(e: Engine, op: Op)
  {
    op.Play? && op.name in e.entries && !e.entries[op.name].borrowed && !e.entries[op.name].iterates
  }

  ghost predicate NoBadPlay(e: Engine, ops: seq<Op>)
    requires Inv(e)
    decreases |ops|
  {
    ops == [] || (!BadPlay(e, ops[0]) && (ApplyKeepsInv(e, ops[0]); NoBadPlay(Apply(e, ops[0]), ops[1..])))
  }

  lemma TickReleases(e: Engine, now: real, acts: nat -> Act)
    requires Inv(e)
    ensures var r := DoTick(e, now, acts);
            && r.entries.Keys == e.entries.Keys
            && forall n | n in e.entries ::
                 && (n !in e.running ==> r.entries[n] == e.entries[n] && n !in r.running)
                 && (n in e.running && n !in r.running ==> !r.entries[n].borrowed)
  {
    StepAllKeepsRunning(e, e.behaviors, now, acts);
  }

  lemma ApplyLeaks(e: Engine, op: Op)
    requires Inv(e)
    ensures NoneLeaked(e) ==> (NoneLeaked(Apply(e, op)) <==> !BadPlay(e, op))
    ensures !NoneLeaked(e) ==> !NoneLeaked(Apply(e, op))
  {
    hide StableSort;
    var r := Apply(e, op);
    if op.Advance? { TickReleases(e, op.now, op.acts); }
    if BadPlay(e, op) && NoneLeaked(e) { assert op.name in r.entries && op.name !in r.running; }
    if !NoneLeaked(e) {
      var n :| n in e.entries && e.entries[n].borrowed && n !in e.running;
      assert n in r.entries && r.entries[n].borrowed && n !in r.running;
    }
  }

  /** A name is running exactly when its entry is borrowed, after every sequence of operations,
      if and only if no play meets a behavior that returns no iterator: such a play raises
      with the entry left borrowed, for good. */
  lemma {:induction false} BorrowedMeansRunningExactly(e: Engine, ops: seq<Op>)
    requires Inv(e)
    ensures NoneLeaked(After(e, ops)) <==> NoneLeaked(e) && NoBadPlay(e, ops)
    decreases |ops|
  {
    if ops != [] {
      ApplyKeepsInv(e, ops[0]);
      ApplyLeaks(e, ops[0]);
      BorrowedMeansRunningExactly(Apply(e, ops[0]), ops[1..]);
    }
  }

  // ---------- What each operation does, told from the operations ----------

  lemma {:induction false} AfterSnoc(e: Engine, ops: seq<Op>, op: Op)
    requires Inv(e)
    ensures After(e, ops + [op]) == Apply(After(e, ops), op)
    decreases |ops|
  {
    hide Apply;
    ApplyKeepsInv(After(e, ops), op);
    if ops == [] {
      assert (ops + [op])[1..] == [];
    } else {
      ApplyKeepsInv(e, ops[0]);
      AfterSnoc(Apply(e, ops[0]), ops[1..], op);
      assert (ops + [op])[1..] == ops[1..] + [op];
    }
  }

  /** When instance x wakes: `max(0, t) + d` if it last slept, for d, when the engine was advanced
      at t. It is only advanced while running and awake. */
  ghost function Wake(ops: seq<Op>, x: nat): real
  {
    if ops == [] then 0.0
    else
      var before, op := ops[..|ops| - 1], ops[|ops| - 1];
      if op.Advance? && x in After(EMPTY, before).behaviors && Wake(before, x) <= op.now && op.acts(x).Sleep?
      then (if op.now > 0.0 then op.now else 0.0) + op.acts(x).seconds
      else Wake(before, x)
  }

  lemma WakeSnoc(ops: seq<Op>, op: Op, x: nat)
    ensures Wake(ops + [op], x) ==
            if op.Advance? && x in After(EMPTY, ops).behaviors && Wake(ops, x) <= op.now && op.acts(x).Sleep?
            then (if op.now > 0.0 then op.now else 0.0) + op.acts(x).seconds else Wake(ops, x)
  {
    assert (ops + [op])[..|ops|] == ops;
  }

  /** The list without some instances, in its order. */
  function Keep(q: seq<nat>, gone: set<nat>): seq<nat>
  {
    if q == [] then [] else (if q[0] in gone then [] else [q[0]]) + Keep(q[1..], gone)
  }

  ghost predicate Distinct(q: seq<nat>) { forall i, j | 0 <= i < j < |q| :: q[i] != q[j] }

  lemma {:induction false} KeepMembers(q: seq<nat>, gone: set<nat>)
    ensures forall x :: x in Keep(q, gone) <==> x in q && x !in gone
    ensures Distinct(q) ==> Distinct(Keep(q, gone))
    ensures (forall x | x in q :: x !in gone) ==> Keep(q, gone) == q
  {
    if q != [] {
      assert q == [q[0]] + q[1..];
      KeepMembers(q[1..], gone);
    }
  }

  lemma {:induction false} RemoveIsKeep(q: seq<nat>, x: nat)
    requires Distinct(q)
    ensures Remove(q, x) == Keep(q, {x})
  {
    if q != [] {
      if q[0] == x {
        assert forall y | y in q[1..] :: y != x;
        KeepMembers(q[1..], {x});
      } else {
        RemoveIsKeep(q[1..], x);
      }
    }
  }

  lemma {:induction false} KeepKeep(q: seq<nat>, a: set<nat>, b: set<nat>)
    ensures Keep(Keep(q, a), b) == Keep(q, a + b)
  {
    if q != [] {
      KeepKeep(q[1..], a, b);
      if q[0] in a {
        assert Keep(q, a) == Keep(q[1..], a);
      } else {
        assert Keep(q, a)[1..] == Keep(q[1..], a);
      }
    }
  }

  predicate EndsIt(act: Act) { act.StopIt? || act.Exhausted? }

  /** The instances of q that are awake and end when advanced. */
  ghost function Ending(store: seq<Instance>, q: seq<nat>, now: real, acts: nat -> Act): set<nat>
    requires Ids(store, q)
  {
    set x | x in q && x < |store| && store[x].sleepUntil <= now && EndsIt(acts(x))
  }

  /** The steps of the awake instances of q, in its order. */
  function StepsOf(store: seq<Instance>, q: seq<nat>, now: real): seq<Event>
    requires Ids(store, q)
  {
    if q == [] then []
    else (if store[q[0]].sleepUntil <= now then [Stepped(q[0], now)] else []) + StepsOf(store, q[1..], now)
  }

  /** Where an instance stands after its share of a tick at `now`. */
  ghost predicate Advanced(b: Instance, r: Instance, now: real, act: Act)
  {
    && r.priority == b.priority
    && (r.done <==> b.done || EndsIt(act))
    && r.sleepUntil == if act.Sleep? then (if now > 0.0 then now else 0.0) + act.seconds else b.sleepUntil
  }

  lemma {:induction false} StepsOfSame(store: seq<Instance>, store': seq<Instance>, q: seq<nat>, now: real)
    requires Ids(store, q) && |store| == |store'| && forall i | 0 <= i < |q| :: store'[q[i]] == store[q[i]]
    ensures StepsOf(store', q, now) == StepsOf(store, q, now)
  {
    if q != [] { StepsOfSame(store, store', q[1..], now); }
  }

  /** One instance's share of a tick. */
  lemma StepOneTold(s: Engine, id: nat, now: real, act: Act)
    requires id < |s.store| && !s.store[id].done && Distinct(s.behaviors)
    ensures var r, awake := StepOne(s, id, now, act), s.store[id].sleepUntil <= now;
            && r.log == s.log + (if awake then [Stepped(id, now)] else []) && |r.store| == |s.store|
            && r.behaviors == Keep(s.behaviors, if awake && EndsIt(act) then {id} else {})
            && (if awake then Advanced(s.store[id], r.store[id], now, act) else r.store[id] == s.store[id])
            && forall x | 0 <= x < |s.store| && x != id :: r.store[x] == s.store[x]
  {
    RemoveIsKeep(s.behaviors, id);
    KeepMembers(s.behaviors, {});
  }

  /** What a tick makes of the instances: those of q that are awake are advanced, the others stay. */
  ghost predicate AllAdvanced(store: seq<Instance>, store': seq<Instance>, q: seq<nat>, now: real, acts: nat -> Act)
  {
    && |store'| == |store|
    && forall x | 0 <= x < |store| ::
         if x in q && store[x].sleepUntil <= now then Advanced(store[x], store'[x], now, acts(x))
         else store'[x] == store[x]
  }

  /** A snapshot the loop can start from: no instance twice, none done. */
  ghost predicate Fit(s: Engine, q: seq<nat>)
  {
    Ids(s.store, q) && Distinct(q) && Distinct(s.behaviors)
    && forall i | 0 <= i < |q| :: !s.store[q[i]].done
  }

  lemma HeadTail(q: seq<nat>)
    requires Distinct(q) && q != []
    ensures Distinct(q[1..]) && forall x :: x in q <==> x == q[0] || x in q[1..]
    ensures q[0] !in q[1..]
  {
    assert q == [q[0]] + q[1..];
  }

  lemma FitNext(s: Engine, q: seq<nat>, now: real, act: Act)
    requires Fit(s, q) && q != []
    ensures Ids(s.store, q) && q[0] < |s.store| && !s.store[q[0]].done && Distinct(q) && Distinct(s.behaviors)
    ensures var k := StepOne(s, q[0], now, act);
            && Fit(k, q[1..]) && |k.store| == |s.store|
            && forall i | 0 <= i < |q| - 1 :: q[1..][i] < |s.store| && k.store[q[1..][i]] == s.store[q[1..][i]]
  {
    assert Distinct(s.behaviors) && !s.store[q[0]].done;
    StepOneTold(s, q[0], now, act);
    hide StepOne, Keep, Advanced;
    KeepMembers(s.behaviors, if s.store[q[0]].sleepUntil <= now && EndsIt(act) then {q[0]} else {});
  }

  /** The loop over the snapshot: each awake instance is advanced once, in order, and nothing else
      happens. */
  lemma {:induction false} StepAllLog(s: Engine, q: seq<nat>, now: real, acts: nat -> Act)
    requires Fit(s, q)
    ensures StepAll(s, q, now, acts).log == s.log + StepsOf(s.store, q, now)
    decreases |q|
  {
    if q != [] {
      hide StepOne, Fit, Keep, Distinct, Advanced;
      var k := StepOne(s, q[0], now, acts(q[0]));
      FitNext(s, q, now, acts(q[0]));
      StepOneTold(s, q[0], now, acts(q[0]));
      StepAllLog(k, q[1..], now, acts);
      StepsOfSame(s.store, k.store, q[1..], now);
    }
  }

  lemma {:induction false} StepAllList(s: Engine, q: seq<nat>, now: real, acts: nat -> Act)
    requires Fit(s, q)
    ensures StepAll(s, q, now, acts).behaviors == Keep(s.behaviors, Ending(s.store, q, now, acts))
    decreases |q|
  {
    if q == [] {
      assert Ending(s.store, q, now, acts) == {};
      KeepMembers(s.behaviors, {});
    } else {
      hide StepOne, Fit, Keep, Distinct;
      var k := StepOne(s, q[0], now, acts(q[0]));
      var gone := if s.store[q[0]].sleepUntil <= now && EndsIt(acts(q[0])) then {q[0]} else {};
      FitNext(s, q, now, acts(q[0]));
      StepOneTold(s, q[0], now, acts(q[0]));
      HeadTail(q);
      StepAllList(k, q[1..], now, acts);
      KeepKeep(s.behaviors, gone, Ending(k.store, q[1..], now, acts));
      assert Ending(s.store, q, now, acts) == gone + Ending(k.store, q[1..], now, acts);
    }
  }

  lemma {:induction false} StepAllStore(s: Engine, q: seq<nat>, now: real, acts: nat -> Act)
    requires Fit(s, q)
    ensures AllAdvanced(s.store, StepAll(s, q, now, acts).store, q, now, acts)
    decreases |q|
  {
    if q != [] {
      hide StepOne, Fit, Keep, Distinct, Advanced;
      FitNext(s, q, now, acts(q[0]));
      StepOneTold(s, q[0], now, acts(q[0]));
      HeadTail(q);
      StepAllStore(StepOne(s, q[0], now, acts(q[0])), q[1..], now, acts);
    }
  }

  lemma InvFit(e: Engine)
    requires Inv(e)
    ensures Fit(e, e.behaviors)
  {
    forall i, j | 0 <= i < j < |e.behaviors| ensures e.behaviors[i] != e.behaviors[j] {
      assert Before(e.store, e.behaviors[i], e.behaviors[j]);
    }
  }

  /** A tick in any state the engine can be in: the executor's part. */
  lemma TickTold(e: Engine, now: real, acts: nat -> Act)
    requires Inv(e)
    ensures var r := DoTick(e, now, acts);
            && r.log == e.log + StepsOf(e.store, e.behaviors, now)
            && r.behaviors == Keep(e.behaviors, Ending(e.store, e.behaviors, now, acts))
            && AllAdvanced(e.store, r.store, e.behaviors, now, acts)
  {
    InvFit(e);
    hide StepAll, Fit, Inv;
    StepAllLog(e, e.behaviors, now, acts);
    StepAllList(e, e.behaviors, now, acts);
    StepAllStore(e, e.behaviors, now, acts);
  }

  /** And the clean-up's part. */
  lemma TickCleans(e: Engine, now: real, acts: nat -> Act)
    requires Inv(e)
    ensures var r := DoTick(e, now, acts);
            var ended := set n | n in e.running && e.running[n] in Ending(e.store, e.behaviors, now, acts);
            r.running == e.running - ended && r.entries == Release(e.entries, ended)
  {
    hide StepAll, StepsOf, Keep;
    TickTold(e, now, acts);
    KeepMembers(e.behaviors, Ending(e.store, e.behaviors, now, acts));
    StepAllKeepsRunning(e, e.behaviors, now, acts);
    var s := StepAll(e, e.behaviors, now, acts);
    var ended := set n | n in e.running && e.running[n] in Ending(e.store, e.behaviors, now, acts);
    forall n ensures n in Finished(s) <==> n in ended {
    }
  }

  /** The engine's own wake times are those told from the operations. */
  lemma {:induction false} WakeTold(ops: seq<Op>)
    ensures var e := After(EMPTY, ops);
            forall x: nat :: Wake(ops, x) == if x < |e.store| then e.store[x].sleepUntil else 0.0
  {
    if ops != [] {
      hide Apply, After, Inv;
      var before, op := ops[..|ops| - 1], ops[|ops| - 1];
      assert ops == before + [op];
      WakeTold(before);
      AfterSnoc(EMPTY, before, op);
      forall x: nat { WakeSnoc(before, op, x); }
      ApplyWakes(After(EMPTY, before), op);
    }
  }

  /** What an operation does to the wake times. */
  lemma ApplyWakes(e: Engine, op: Op)
    requires Inv(e)
    ensures var r := Apply(e, op);
            && |r.store| >= |e.store|
            && (forall x | |e.store| <= x < |r.store| :: r.store[x].sleepUntil == 0.0)
            && forall x | 0 <= x < |e.store| ::
                 r.store[x].sleepUntil ==
                 if op.Advance? && x in e.behaviors && e.store[x].sleepUntil <= op.now && op.acts(x).Sleep?
                 then (if op.now > 0.0 then op.now else 0.0) + op.acts(x).seconds else e.store[x].sleepUntil
  {
    hide StableSort, DoTick;
    match op
    case Load(_, _) =>
    case Stop(_) =>
    case Play(_, _) =>
    case Advance(now, acts) => TickTold(e, now, acts);
  }

  /** The steps of a tick at `now`, told from the operations: the instances in the list whose wake
      time has come, in the order of the list. */
  ghost function Due(ops: seq<Op>, q: seq<nat>, now: real): seq<Event>
  {
    if q == [] then []
    else (if Wake(ops, q[0]) <= now then [Stepped(q[0], now)] else []) + Due(ops, q[1..], now)
  }

  lemma {:induction false} DueSteps(ops: seq<Op>, q: seq<nat>, now: real)
    requires Ids(After(EMPTY, ops).store, q)
    ensures Due(ops, q, now) == StepsOf(After(EMPTY, ops).store, q, now)
  {
    hide After, Wake;
    WakeTold(ops);
    if q != [] { DueSteps(ops, q[1..], now); }
  }

  /** After every sequence of operations, a tick advances exactly the running instances whose wake
      time has come, each once, by priority and arrival. An instance that was advanced and yields a
      stop or is exhausted leaves list, running table and registry in that tick; every other stays
      where it was. */
  lemma TickExactly(ops: seq<Op>, now: real, acts: nat -> Act)
    ensures var e, r := After(EMPTY, ops), After(EMPTY, ops + [Advance(now, acts)]);
            var gone := set x | x in e.behaviors && Wake(ops, x) <= now && EndsIt(acts(x));
            var ended := set n | n in e.running && e.running[n] in gone;
            && r.log == e.log + Due(ops, e.behaviors, now)
            && r.behaviors == Keep(e.behaviors, gone)
            && r.running == e.running - ended
            && r.entries.Keys == e.entries.Keys
            && forall n | n in e.entries ::
                 r.entries[n] == if n in ended then e.entries[n].(borrowed := false) else e.entries[n]
  {
    hide After, Wake, DoTick, Keep, StepsOf, Due;
    var e := After(EMPTY, ops);
    AfterTick(ops, now, acts);
    TickTold(e, now, acts);
    TickCleans(e, now, acts);
    EndingTold(ops, now, acts);
    DueSteps(ops, e.behaviors, now);
  }

  lemma EndingTold(ops: seq<Op>, now: real, acts: nat -> Act)
    ensures var e := After(EMPTY, ops);
            Ending(e.store, e.behaviors, now, acts)
            == set x | x in e.behaviors && Wake(ops, x) <= now && EndsIt(acts(x))
  {
    hide After, Wake;
    WakeTold(ops);
  }

  lemma AfterTick(ops: seq<Op>, now: real, acts: nat -> Act)
    ensures After(EMPTY, ops + [Advance(now, acts)]) == DoTick(After(EMPTY, ops), now, acts)
  {
    hide After, DoTick;
    AfterSnoc(EMPTY, ops, Advance(now, acts));
  }

  /** So a sleeping behavior is not stepped before its wake time and is stepped at the first tick
      from then on: at a tick, a running instance is stepped once if its wake time has come, and
      otherwise not at all. */
  lemma SteppedExactly(ops: seq<Op>, now: real, acts: nat -> Act, x: nat)
    requires x in After(EMPTY, ops).behaviors
    ensures var e, r := After(EMPTY, ops), After(EMPTY, ops + [Advance(now, acts)]);
            e.log <= r.log && multiset(r.log[|e.log|..])[Stepped(x, now)] == if Wake(ops, x) <= now then 1 else 0
  {
    hide After, Wake;
    var e, r := After(EMPTY, ops), After(EMPTY, ops + [Advance(now, acts)]);
    TickExactly(ops, now, acts);
    assert r.log[|e.log|..] == Due(ops, e.behaviors, now);
    DueCounts(ops, e.behaviors, now, x);
  }

  lemma {:induction false} DueCounts(ops: seq<Op>, q: seq<nat>, now: real, x: nat)
    requires Distinct(q)
    ensures multiset(Due(ops, q, now))[Stepped(x, now)] == if x in q && Wake(ops, x) <= now then 1 else 0
  {
    hide Wake;
    if q != [] {
      assert q == [q[0]] + q[1..];
      DueCounts(ops, q[1..], now, x);
      var head := if Wake(ops, q[0]) <= now then [Stepped(q[0], now)] else [];
      assert Due(ops, q, now) == head + Due(ops, q[1..], now);
      if q[0] == x { assert x !in q[1..]; }
    }
  }

  /** A play succeeds exactly when the name is registered, free and iterates. Then there is one more
      instance, of the priority asked for, awake and running under that name. It stands after all
      instances of its priority or a smaller one and before all others, and nothing else changes. */
  lemma PlayExactly(e: Engine, name: string, priority: int) returns (front: seq<nat>, back: seq<nat>)
    requires Inv(e)
    ensures var (r, out) := DoPlay(e, name, priority);
            && (out.Done? <==> name in e.entries && !e.entries[name].borrowed && e.entries[name].iterates)
            && (out in {KeyError, AlreadyBorrowed} ==> r == e)
            && (out.KeyError? <==> name !in e.entries)
            && (out.Done? ==>
                  && r.store == e.store + [Instance(priority, 0.0, false)] && r.running == e.running[name := |e.store|]
                  && e.behaviors == front + back && r.behaviors == front + [|e.store|] + back
                  && (forall x | x in front :: x < |e.store| && e.store[x].priority <= priority)
                  && (forall x | x in back :: x < |e.store| && priority < e.store[x].priority)
                  && r.entries == e.entries[name := Entry(true, true)] && r.log == e.log)
  {
    hide StableSort, InsertLast;
    var store := e.store + [Instance(priority, 0.0, false)];
    assert Ordered(store, e.behaviors);
    hide Ordered, Linked;
    front, back := SortSplits(store, e.behaviors, |e.store|);
  }

  lemma SortSplits(store: seq<Instance>, q: seq<nat>, x: nat) returns (front: seq<nat>, back: seq<nat>)
    requires Ordered(store, q) && x < |store|
    ensures q == front + back && StableSort(store, q + [x]) == front + [x] + back
    ensures forall y | y in front :: y < |store| && store[y].priority <= store[x].priority
    ensures forall y | y in back :: y < |store| && store[x].priority < store[y].priority
  {
    assert (q + [x])[..|q|] == q;
    SortOfOrdered(store, q);
    front, back := InsertSplits(store, q, x);
  }

  lemma {:induction false} InsertSplits(store: seq<Instance>, q: seq<nat>, x: nat) returns (front: seq<nat>, back: seq<nat>)
    requires Ordered(store, q) && x < |store|
    ensures q == front + back && InsertLast(store, q, x) == front + [x] + back
    ensures forall y | y in front :: y < |store| && store[y].priority <= store[x].priority
    ensures forall y | y in back :: y < |store| && store[x].priority < store[y].priority
  {
    if q == [] || store[q[|q| - 1]].priority <= store[x].priority {
      front, back := q, [];
      forall y | y in front ensures y < |store| && store[y].priority <= store[x].priority {
        var i :| 0 <= i < |q| && q[i] == y;
        if i < |q| - 1 { assert Before(store, q[i], q[|q| - 1]); }
      }
    } else {
      var p, z := q[..|q| - 1], q[|q| - 1];
      var f, b := InsertSplits(store, p, x);
      front, back := f, b + [z];
      assert q == p + [z];
    }
  }

  /** A stop of a running name takes out its instance and frees its entry; nothing else changes. */
  lemma StopExactly(e: Engine, name: string)
    requires Inv(e)
    ensures var r := DoStop(e, name);
            && (name !in e.running ==> r == e)
            && (name in e.running ==>
                  && r.behaviors == Keep(e.behaviors, {e.running[name]}) && r.running == e.running - {name}
                  && r.entries == e.entries[name := e.entries[name].(borrowed := false)]
                  && r.store == e.store && r.log == e.log)
  {
    if name in e.running {
      assert Distinct(e.behaviors) by {
        forall i, j | 0 <= i < j < |e.behaviors| ensures e.behaviors[i] != e.behaviors[j] {
          assert Before(e.store, e.behaviors[i], e.behaviors[j]);
        }
      }
      RemoveIsKeep(e.behaviors, e.running[name]);
    }
  }

  /** What a name was registered with: by its first load, if any. */
  function Registered(ops: seq<Op>, name: string): Option<bool>
  {
    if ops == [] then None
    else
      var before, op := Registered(ops[..|ops| - 1], name), ops[|ops| - 1];
      if before.None? && op.Load? && op.name == name then Some(op.iterates) else before
  }

  lemma ApplyRegisters(e: Engine, op: Op, name: string)
    requires Inv(e)
    ensures var r := Apply(e, op).entries;
            && (name in r <==> name in e.entries || (op.Load? && op.name == name))
            && (name in e.entries ==> r[name].iterates == e.entries[name].iterates)
            && (name in r && name !in e.entries ==> r[name].iterates == op.iterates)
  {
    hide StableSort, DoTick;
    if op.Advance? { TickCleans(e, op.now, op.acts); }
  }

  /** The registry holds exactly the names ever loaded, each as its first load said. */
  lemma {:induction false} RegistryTold(ops: seq<Op>, name: string)
    ensures var e := After(EMPTY, ops).entries;
            && (name in e <==> Registered(ops, name).Some?)
            && (name in e ==> Registered(ops, name) == Some(e[name].iterates))
  {
    if ops != [] {
      hide After, Inv, Apply;
      var before, op := ops[..|ops| - 1], ops[|ops| - 1];
      assert ops == before + [op];
      RegistryTold(before, name);
      AfterSnoc(EMPTY, before, op);
      ApplyRegisters(After(EMPTY, before), op, name);
    }
  }

  // ---------- The engine object ----------

  function Names(visit: seq<string>): set<string> { set n | n in visit }

  class BehaviorEngine {
    var entries: map<string, Entry>
    var store: seq<Instance>
    var behaviors: seq<nat>
    var running: map<string, nat>
    var log: seq<Event>

    ghost function View(): Engine
      reads this
    {
      Engine(entries, store, behaviors, running, log)
    }

    constructor ()
      ensures View() == EMPTY
    {
      entries, store, behaviors, running, log := map[], [], [], map[], [];
    }

    method LoadBehavior(name: string, iterates: bool) returns (out: Outcome)
      requires Inv(View())
      modifies this`entries
      ensures View() == Apply(old(View()), Load(name, iterates))
      ensures out == if name in old(entries) then KeyError else Done
    {
      if name in entries { return KeyError; }
      entries := entries[name := Entry(iterates, false)];
      return Done;
    }

    /** registry.borrow */
    method Borrow(name: string) returns (out: Outcome)
      modifies this`entries
      ensures out == if name !in old(entries) then KeyError
                     else if old(entries)[name].borrowed then AlreadyBorrowed else Done
      ensures entries == if out.Done? then old(entries)[name := old(entries)[name].(borrowed := true)] else old(entries)
    {
      if name !in entries { return KeyError; }
      if entries[name].borrowed { return AlreadyBorrowed; }
      entries := entries[name := entries[name].(borrowed := true)];
      return Done;
    }

    method PlayBehavior(name: string, priority: int) returns (out: Outcome)
      requires Inv(View())
      modifies this
      ensures (View(), out) == DoPlay(old(View()), name, priority)
    {
      hide StableSort;
      out := Borrow(name);
      if out != Done { return; }
      if !entries[name].iterates { return TypeError; }
      var id := |store|;
      store := store + [Instance(priority, 0.0, false)];
      behaviors := behaviors + [id];
      behaviors := StableSort(store, behaviors);
      running := running[name := id];
    }

    method StopBehavior(name: string)
      requires Inv(View())
      modifies this
      ensures View() == DoStop(old(View()), name)
    {
      if name !in running { return; }
      var id := running[name];
      running := running - {name};
      behaviors := Remove(behaviors, id);
      entries := entries[name := entries[name].(borrowed := false)];
      assert entries == Release(old(entries), {name});
    }

    /** executor.tick over its snapshot, then _cleanup_finished over the running names. */
    method TickEngine(now: real, acts: nat -> Act, visit: seq<string>)
      requires Inv(View()) && Names(visit) == running.Keys
      modifies this
      ensures View() == DoTick(old(View()), now, acts)
    {
      var snapshot := behaviors;
      var i := 0;
      while i < |snapshot|
        invariant 0 <= i <= |snapshot| && |store| == |old(store)|
        invariant StepAll(View(), snapshot[i..], now, acts) == StepAll(old(View()), snapshot, now, acts)
      {
        assert snapshot[i..][1..] == snapshot[i + 1..];
        StepBehavior(snapshot[i], now, acts(snapshot[i]));
        i := i + 1;
      }
      StepAllKeepsRunning(old(View()), snapshot, now, acts);
      CleanupFinished(visit);
    }

    method StepBehavior(id: nat, now: real, act: Act)
      requires id < |store|
      modifies this
      ensures View() == StepOne(old(View()), id, now, act)
    {
      var b := store[id];
      if b.done || now < b.sleepUntil { return; }
      log := log + [Stepped(id, now)];
      match act
      case Nothing | Continue | Tick =>
      case StopIt | Exhausted =>
        store := store[id := b.(done := true)];
        behaviors := Remove(behaviors, id);
      case Sleep(seconds) =>
        store := store[id := b.(sleepUntil := Max(0.0, now) + seconds)];
    }

    method CleanupFinished(visit: seq<string>)
      requires Names(visit) == running.Keys && (forall n | n in running :: running[n] < |store| && n in entries)
      modifies this`running, this`entries
      ensures var gone := Finished(old(View()));
              running == old(running) - gone && entries == Release(old(entries), gone)
    {
      ghost var gone := Finished(View());
      var i := 0;
      while i < |visit|
        invariant 0 <= i <= |visit|
        invariant running == old(running) - (gone * Names(visit[..i]))
        invariant entries == Release(old(entries), gone * Names(visit[..i]))
      {
        var name := visit[i];
        assert name in Names(visit);
        assert visit[..i + 1] == visit[..i] + [name];
        assert Names(visit[..i + 1]) == Names(visit[..i]) + {name};
        if name in running && (store[running[name]].done || running[name] !in behaviors) {
          running := running - {name};
          entries := entries[name := entries[name].(borrowed := false)];
        }
        i := i + 1;
      }
      assert visit[..i] == visit && gone * Names(visit) == gone;
    }
  }
}

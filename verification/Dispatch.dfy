/**
 Command dispatch in the hardware_mng package (dispatcher.py, batch_dispatcher.py): handlers
 registered by key, and a dispatcher that groups commands by batches of keys first.
 */
module Dispatch {
  type Key = int
  type Payload = int
  type Handler = nat

  datatype Command = Command(key: Key, payload: Payload)

  /** One invocation of a handler, with the key of the command that caused it. */
  datatype Call = Call(key: Key, handler: Handler, payload: Payload)

  type Handlers = map<Key, seq<Handler>>
  type Batches = seq<set<Key>>

  function Bucket(h: Handlers, k: Key): seq<Handler> { if k in h then h[k] else [] }

  /** The calls one command causes, in order of registration. */
  function CallsOf(h: Handlers, c: Command): (r: seq<Call>)
    ensures forall x | x in r :: x.key == c.key
  {
    var b := Bucket(h, c.key);
    seq(|b|, i requires 0 <= i < |b| => Call(c.key, b[i], c.payload))
  }

  /** dispatch_multiple */
  function Plain(h: Handlers, cmds: seq<Command>): seq<Call>
  {
    if cmds == [] then [] else Plain(h, cmds[..|cmds| - 1]) + CallsOf(h, cmds[|cmds| - 1])
  }

  function Select(cmds: seq<Command>, keys: set<Key>): seq<Command>
  {
    if cmds == [] then []
    else
      var c := cmds[|cmds| - 1];
      Select(cmds[..|cmds| - 1], keys) + (if c.key in keys then [c] else [])
  }

  predicate InSome(batches: Batches, k: Key) { exists i :: 0 <= i < |batches| && k in batches[i] }

  function Unbatched(cmds: seq<Command>, batches: Batches): seq<Command>
  {
    if cmds == [] then []
    else
      var c := cmds[|cmds| - 1];
      Unbatched(cmds[..|cmds| - 1], batches) + (if InSome(batches, c.key) then [] else [c])
  }

  function BatchCalls(h: Handlers, batches: Batches, cmds: seq<Command>): seq<Call>
  {
    if batches == [] then []
    else BatchCalls(h, batches[..|batches| - 1], cmds) + Plain(h, Select(cmds, batches[|batches| - 1]))
  }

  /** BatchDispatcher.dispatch: each batch in turn, then what is in no batch. */
  function Batched(h: Handlers, batches: Batches, cmds: seq<Command>): seq<Call>
  {
    BatchCalls(h, batches, cmds) + Plain(h, Unbatched(cmds, batches))
  }

  // ---------- Conservation ----------

  /** The calls of one key, in order. */
  function Project(log: seq<Call>, k: Key): seq<Call>
  {
    if log == [] then []
    else Project(log[..|log| - 1], k) + (if log[|log| - 1].key == k then [log[|log| - 1]] else [])
  }

  function Repeat(s: seq<Call>, n: nat): seq<Call>
  {
    if n == 0 then [] else Repeat(s, n - 1) + s
  }

  function Copies(batches: Batches, k: Key): nat
  {
    if batches == [] then 0 else Copies(batches[..|batches| - 1], k) + (if k in batches[|batches| - 1] then 1 else 0)
  }

  /** How often a command of this key is dispatched. */
  function Times(batches: Batches, k: Key): nat
  {
    if Copies(batches, k) == 0 then 1 else Copies(batches, k)
  }

  lemma ProjectSnoc(log: seq<Call>, x: Call, k: Key)
    ensures Project(log + [x], k) == Project(log, k) + (if x.key == k then [x] else [])
  {
    assert (log + [x])[..|log|] == log;
  }

  lemma {:induction false} ProjectConcat(a: seq<Call>, b: seq<Call>, k: Key)
    ensures Project(a + b, k) == Project(a, k) + Project(b, k)
  {
    if b == [] {
      assert a + b == a;
    } else {
      hide Project;
      var rest, x := b[..|b| - 1], b[|b| - 1];
      ProjectConcat(a, rest, k);
      assert a + b == (a + rest) + [x] && b == rest + [x];
      ProjectSnoc(a + rest, x, k);
      ProjectSnoc(rest, x, k);
    }
  }

  lemma {:induction false} ProjectOwn(log: seq<Call>, k: Key, own: Key)
    requires forall x | x in log :: x.key == own
    ensures Project(log, k) == if k == own then log else []
  {
    if log != [] {
      var n := |log| - 1;
      ProjectOwn(log[..n], k, own);
      assert log[n] in log;
      assert log[..n] + [log[n]] == log;
    }
  }

  lemma PlainStep(h: Handlers, cmds: seq<Command>, c: Command)
    ensures Plain(h, cmds + [c]) == Plain(h, cmds) + CallsOf(h, c)
  {
    assert (cmds + [c])[..|cmds|] == cmds;
  }

  /** Selecting by keys keeps all calls of those keys, in order, and no other. */
  lemma {:induction false} SelectProject(h: Handlers, cmds: seq<Command>, keys: set<Key>, k: Key)
    ensures Project(Plain(h, Select(cmds, keys)), k) == if k in keys then Project(Plain(h, cmds), k) else []
  {
    if cmds != [] {
      var rest, c := cmds[..|cmds| - 1], cmds[|cmds| - 1];
      SelectProject(h, rest, keys, k);
      ProjectConcat(Plain(h, rest), CallsOf(h, c), k);
      ProjectOwn(CallsOf(h, c), k, c.key);
      if c.key in keys {
        PlainStep(h, Select(rest, keys), c);
        ProjectConcat(Plain(h, Select(rest, keys)), CallsOf(h, c), k);
      } else {
        assert Select(cmds, keys) == Select(rest, keys);
      }
    }
  }

  lemma {:induction false} UnbatchedProject(h: Handlers, cmds: seq<Command>, batches: Batches, k: Key)
    ensures Project(Plain(h, Unbatched(cmds, batches)), k)
         == if InSome(batches, k) then [] else Project(Plain(h, cmds), k)
  {
    if cmds != [] {
      var rest, c := cmds[..|cmds| - 1], cmds[|cmds| - 1];
      UnbatchedProject(h, rest, batches, k);
      ProjectConcat(Plain(h, rest), CallsOf(h, c), k);
      ProjectOwn(CallsOf(h, c), k, c.key);
      if InSome(batches, c.key) {
        assert Unbatched(cmds, batches) == Unbatched(rest, batches);
      } else {
        PlainStep(h, Unbatched(rest, batches), c);
        ProjectConcat(Plain(h, Unbatched(rest, batches)), CallsOf(h, c), k);
      }
    }
  }

  lemma BatchesSnoc(h: Handlers, rest: Batches, b: set<Key>, cmds: seq<Command>, k: Key)
    ensures BatchCalls(h, rest + [b], cmds) == BatchCalls(h, rest, cmds) + Plain(h, Select(cmds, b))
    ensures Copies(rest + [b], k) == Copies(rest, k) + if k in b then 1 else 0
  {
    assert (rest + [b])[..|rest|] == rest;
  }

  lemma {:induction false} BatchProject(h: Handlers, batches: Batches, cmds: seq<Command>, k: Key)
    ensures Project(BatchCalls(h, batches, cmds), k) == Repeat(Project(Plain(h, cmds), k), Copies(batches, k))
  {
    if batches != [] {
      hide Plain, Select, Repeat, Project, BatchCalls, Copies;
      var rest, b := batches[..|batches| - 1], batches[|batches| - 1];
      BatchProject(h, rest, cmds, k);
      BatchProjectNext(h, rest, b, cmds, k);
      assert batches == rest + [b];
    }
  }

  lemma BatchProjectNext(h: Handlers, rest: Batches, b: set<Key>, cmds: seq<Command>, k: Key)
    requires Project(BatchCalls(h, rest, cmds), k) == Repeat(Project(Plain(h, cmds), k), Copies(rest, k))
    ensures Project(BatchCalls(h, rest + [b], cmds), k) == Repeat(Project(Plain(h, cmds), k), Copies(rest + [b], k))
  {
    hide Plain, Select, Repeat, Project, BatchCalls, Copies;
    BatchesSnoc(h, rest, b, cmds, k);
    ProjectConcat(BatchCalls(h, rest, cmds), Plain(h, Select(cmds, b)), k);
    SelectProject(h, cmds, b, k);
    RepeatSteps(Project(Plain(h, cmds), k), Copies(rest, k));
  }

  lemma RepeatSteps(s: seq<Call>, n: nat)
    ensures Repeat(s, 0) == [] && Repeat(s, n + 1) == Repeat(s, n) + s
  {
  }

  lemma {:induction false} CopiesExactly(batches: Batches, k: Key)
    ensures Copies(batches, k) > 0 <==> InSome(batches, k)
  {
    if batches != [] {
      var n := |batches| - 1;
      CopiesExactly(batches[..n], k);
      if InSome(batches[..n], k) {
        var i :| 0 <= i < n && k in batches[..n][i];
        assert k in batches[i];
      }
      if InSome(batches, k) && k !in batches[n] {
        var i :| 0 <= i < |batches| && k in batches[i];
        assert k in batches[..n][i];
      }
    }
  }

  /** For every key, batched dispatch makes the calls plain dispatch makes, in the same order,
      as many times over as batches contain the key, and once if none does. */
  lemma BatchedConserves(h: Handlers, batches: Batches, cmds: seq<Command>, k: Key)
    ensures Project(Batched(h, batches, cmds), k) == Repeat(Project(Plain(h, cmds), k), Times(batches, k))
  {
    ProjectConcat(BatchCalls(h, batches, cmds), Plain(h, Unbatched(cmds, batches)), k);
    BatchProject(h, batches, cmds, k);
    UnbatchedProject(h, cmds, batches, k);
    CopiesExactly(batches, k);
    var p := Project(Plain(h, cmds), k);
    assert Repeat(p, 0) == [] && Repeat(p, 1) == p;
  }

  lemma {:induction false} ProjectCount(log: seq<Call>, x: Call)
    ensures multiset(Project(log, x.key))[x] == multiset(log)[x]
  {
    if log != [] {
      ProjectCount(log[..|log| - 1], x);
      assert log == log[..|log| - 1] + [log[|log| - 1]];
    }
  }

  lemma {:induction false} RepeatCount(s: seq<Call>, n: nat, x: Call)
    ensures multiset(Repeat(s, n))[x] == n * multiset(s)[x]
  {
    if n > 0 {
      RepeatCount(s, n - 1, x);
      var m := multiset(s)[x];
      assert multiset(Repeat(s, n - 1) + s) == multiset(Repeat(s, n - 1)) + multiset(s);
      assert (n - 1) * m + m == n * m;
    }
  }

  /** Every call is made exactly Times as often as by plain dispatch. */
  lemma BatchedCounts(h: Handlers, batches: Batches, cmds: seq<Command>, x: Call)
    ensures multiset(Batched(h, batches, cmds))[x] == Times(batches, x.key) * multiset(Plain(h, cmds))[x]
  {
    BatchedConserves(h, batches, cmds, x.key);
    ProjectCount(Batched(h, batches, cmds), x);
    ProjectCount(Plain(h, cmds), x);
    RepeatCount(Project(Plain(h, cmds), x.key), Times(batches, x.key), x);
  }

  // ---------- Every handler of every command ----------

  function CommandsOf(cmds: seq<Command>, k: Key): seq<Payload>
  {
    if cmds == [] then []
    else CommandsOf(cmds[..|cmds| - 1], k) + if cmds[|cmds| - 1].key == k then [cmds[|cmds| - 1].payload] else []
  }

  /** One payload to every handler in turn. */
  function Each(k: Key, handlers: seq<Handler>, p: Payload): seq<Call>
  {
    seq(|handlers|, i requires 0 <= i < |handlers| => Call(k, handlers[i], p))
  }

  /** For each payload in turn, every handler in turn. */
  function Product(k: Key, payloads: seq<Payload>, handlers: seq<Handler>): seq<Call>
  {
    if payloads == [] then []
    else Product(k, payloads[..|payloads| - 1], handlers) + Each(k, handlers, payloads[|payloads| - 1])
  }

  /** Plain dispatch, key by key: each command of the key in turn reaches every handler of the key,
      in the order of registration. */
  lemma {:induction false} PlainReachesAll(h: Handlers, cmds: seq<Command>, k: Key)
    ensures Project(Plain(h, cmds), k) == Product(k, CommandsOf(cmds, k), if k in h then h[k] else [])
  {
    var b := if k in h then h[k] else [];
    if cmds != [] {
      var rest, c := cmds[..|cmds| - 1], cmds[|cmds| - 1];
      PlainReachesAll(h, rest, k);
      ProjectConcat(Plain(h, rest), CallsOf(h, c), k);
      ProjectOwn(CallsOf(h, c), k, c.key);
      if c.key == k {
        assert CommandsOf(cmds, k)[..|CommandsOf(rest, k)|] == CommandsOf(rest, k);
        assert CallsOf(h, c) == Each(k, b, c.payload);
      } else {
        assert CommandsOf(cmds, k) == CommandsOf(rest, k);
      }
    }
  }

  lemma {:induction false} EachCounts(k: Key, b: seq<Handler>, p: Payload, x: Call)
    ensures multiset(Each(k, b, p))[x] == if x.key == k && x.payload == p then multiset(b)[x.handler] else 0
  {
    if b == [] {
      assert Each(k, b, p) == [];
    } else {
      var n := |b| - 1;
      EachCounts(k, b[..n], p, x);
      assert Each(k, b, p) == Each(k, b[..n], p) + [Call(k, b[n], p)];
      assert b == b[..n] + [b[n]];
    }
  }

  lemma CallsOfCounts(h: Handlers, c: Command, x: Call)
    ensures multiset(CallsOf(h, c))[x] == if c == Command(x.key, x.payload) then Registered(h, x) else 0
  {
    var b := if c.key in h then h[c.key] else [];
    EachCounts(c.key, b, c.payload, x);
    assert CallsOf(h, c) == Each(c.key, b, c.payload);
  }

  /** How often a call's handler is registered for its key. */
  function Registered(h: Handlers, x: Call): nat
  {
    multiset(if x.key in h then h[x.key] else [])[x.handler]
  }

  function Given(cmds: seq<Command>, x: Call): nat { multiset(cmds)[Command(x.key, x.payload)] }

  /** Every handler is called for every command of its key: plain dispatch makes a call as often as
      its command is given times as often as its handler is registered. */
  lemma {:induction false} PlainCounts(h: Handlers, cmds: seq<Command>, x: Call)
    ensures multiset(Plain(h, cmds))[x] == Given(cmds, x) * Registered(h, x)
  {
    hide Plain, Given, Registered;
    if cmds == [] {
      NothingGiven(h, x);
    } else {
      var rest, c := cmds[..|cmds| - 1], cmds[|cmds| - 1];
      assert cmds == rest + [c];
      PlainCounts(h, rest, x);
      OneMoreCommand(h, rest, c, x);
      Distribute(Given(rest, x), Registered(h, x));
    }
  }

  lemma NothingGiven(h: Handlers, x: Call)
    ensures multiset(Plain(h, []))[x] == 0 && Given([], x) == 0
  {
  }

  lemma Distribute(g: nat, m: nat)
    ensures (g + 1) * m == g * m + m
  {
  }

  lemma OneMoreCommand(h: Handlers, rest: seq<Command>, c: Command, x: Call)
    ensures var own := c == Command(x.key, x.payload);
            && multiset(Plain(h, rest + [c]))[x] == multiset(Plain(h, rest))[x] + (if own then Registered(h, x) else 0)
            && Given(rest + [c], x) == Given(rest, x) + (if own then 1 else 0)
  {
    hide CallsOf, Registered;
    PlainStep(h, rest, c);
    CallsOfCounts(h, c, x);
    assert multiset(Plain(h, rest) + CallsOf(h, c)) == multiset(Plain(h, rest)) + multiset(CallsOf(h, c));
  }

  /** The whole law of batched dispatch: a handler is called with a payload as often as the command
      is given, times as often as the handler is registered for its key, times the number of batches
      that contain the key, or once if none does. */
  lemma BatchedReachesAll(h: Handlers, batches: Batches, cmds: seq<Command>, x: Call)
    ensures multiset(Batched(h, batches, cmds))[x] ==
            Times(batches, x.key) * (Given(cmds, x) * Registered(h, x))
  {
    BatchedCounts(h, batches, cmds, x);
    PlainCounts(h, cmds, x);
  }

  // ---------- The whole log, in its order ----------

  /** The part of a log whose keys are in a set, in its order. */
  function Part(log: seq<Call>, keys: set<Key>): seq<Call>
  {
    if log == [] then []
    else Part(log[..|log| - 1], keys) + (if log[|log| - 1].key in keys then [log[|log| - 1]] else [])
  }

  /** The part whose keys are in no batch. */
  function OutsidePart(log: seq<Call>, batches: Batches): seq<Call>
  {
    if log == [] then []
    else OutsidePart(log[..|log| - 1], batches) + (if InSome(batches, log[|log| - 1].key) then [] else [log[|log| - 1]])
  }

  /** The parts of the batches, one batch after the other. */
  function Parts(log: seq<Call>, batches: Batches): seq<Call>
  {
    if batches == [] then [] else Parts(log, batches[..|batches| - 1]) + Part(log, batches[|batches| - 1])
  }

  lemma PartSnoc(log: seq<Call>, x: Call, keys: set<Key>, batches: Batches)
    ensures Part(log + [x], keys) == Part(log, keys) + (if x.key in keys then [x] else [])
    ensures OutsidePart(log + [x], batches)
         == OutsidePart(log, batches) + (if InSome(batches, x.key) then [] else [x])
  {
    assert (log + [x])[..|log|] == log;
  }

  lemma {:induction false} PartConcat(a: seq<Call>, b: seq<Call>, keys: set<Key>)
    ensures Part(a + b, keys) == Part(a, keys) + Part(b, keys)
  {
    if b == [] {
      assert a + b == a;
    } else {
      hide Part, OutsidePart;
      var rest, x := b[..|b| - 1], b[|b| - 1];
      PartConcat(a, rest, keys);
      assert a + b == (a + rest) + [x] && b == rest + [x];
      PartSnoc(a + rest, x, keys, []);
      PartSnoc(rest, x, keys, []);
    }
  }

  lemma {:induction false} OutsideConcat(a: seq<Call>, b: seq<Call>, batches: Batches)
    ensures OutsidePart(a + b, batches) == OutsidePart(a, batches) + OutsidePart(b, batches)
  {
    if b == [] {
      assert a + b == a;
    } else {
      hide Part, OutsidePart;
      var rest, x := b[..|b| - 1], b[|b| - 1];
      OutsideConcat(a, rest, batches);
      assert a + b == (a + rest) + [x] && b == rest + [x];
      PartSnoc(a + rest, x, {}, batches);
      PartSnoc(rest, x, {}, batches);
    }
  }

  lemma {:induction false} PartOwn(log: seq<Call>, own: Key, keys: set<Key>, batches: Batches)
    requires forall x | x in log :: x.key == own
    ensures Part(log, keys) == if own in keys then log else []
    ensures OutsidePart(log, batches) == if InSome(batches, own) then [] else log
  {
    if log != [] {
      hide Part, OutsidePart;
      var rest, x := log[..|log| - 1], log[|log| - 1];
      assert x in log && log == rest + [x];
      PartOwn(rest, own, keys, batches);
      PartSnoc(rest, x, keys, batches);
    }
  }

  /** Dispatching the commands of a batch makes that part of the plain log. */
  lemma {:induction false} SelectIsPart(h: Handlers, cmds: seq<Command>, keys: set<Key>)
    ensures Plain(h, Select(cmds, keys)) == Part(Plain(h, cmds), keys)
  {
    hide CallsOf;
    if cmds != [] {
      var rest, c := cmds[..|cmds| - 1], cmds[|cmds| - 1];
      SelectIsPart(h, rest, keys);
      PartConcat(Plain(h, rest), CallsOf(h, c), keys);
      PartOwn(CallsOf(h, c), c.key, keys, []);
      if c.key in keys {
        PlainStep(h, Select(rest, keys), c);
      } else {
        assert Select(cmds, keys) == Select(rest, keys);
      }
    }
  }

  lemma {:induction false} UnbatchedIsPart(h: Handlers, cmds: seq<Command>, batches: Batches)
    ensures Plain(h, Unbatched(cmds, batches)) == OutsidePart(Plain(h, cmds), batches)
  {
    hide CallsOf;
    if cmds != [] {
      var rest, c := cmds[..|cmds| - 1], cmds[|cmds| - 1];
      UnbatchedIsPart(h, rest, batches);
      OutsideConcat(Plain(h, rest), CallsOf(h, c), batches);
      PartOwn(CallsOf(h, c), c.key, {}, batches);
      if InSome(batches, c.key) {
        assert Unbatched(cmds, batches) == Unbatched(rest, batches);
      } else {
        PlainStep(h, Unbatched(rest, batches), c);
      }
    }
  }

  lemma {:induction false} BatchesAreParts(h: Handlers, batches: Batches, cmds: seq<Command>)
    ensures BatchCalls(h, batches, cmds) == Parts(Plain(h, cmds), batches)
  {
    hide Plain, Select, Part;
    if batches != [] {
      BatchesAreParts(h, batches[..|batches| - 1], cmds);
      SelectIsPart(h, cmds, batches[|batches| - 1]);
    }
  }

  /** Batched dispatch is plain dispatch regrouped: for each batch in turn the part of the plain log
      whose keys it contains, and then the part whose keys are in no batch, each in the order of the
      plain log, across keys and handlers. */
  lemma BatchedRegroups(h: Handlers, batches: Batches, cmds: seq<Command>)
    ensures Batched(h, batches, cmds) == Parts(Plain(h, cmds), batches) + OutsidePart(Plain(h, cmds), batches)
  {
    BatchesAreParts(h, batches, cmds);
    UnbatchedIsPart(h, cmds, batches);
  }

  lemma {:induction false} PlainConcat(h: Handlers, a: seq<Command>, b: seq<Command>)
    ensures Plain(h, a + b) == Plain(h, a) + Plain(h, b)
    decreases |b|
  {
    hide CallsOf;
    if b == [] {
      assert a + b == a;
    } else {
      var rest, c := b[..|b| - 1], b[|b| - 1];
      PlainConcat(h, a, rest);
      assert a + b == (a + rest) + [c] && b == rest + [c];
      PlainStep(h, a + rest, c);
      PlainStep(h, rest, c);
    }
  }

  /** The plain log in its order: the calls of the first commands, and then those of the later ones;
      one command reaches each handler of its key in turn. */
  lemma PlainInOrder(h: Handlers, a: seq<Command>, b: seq<Command>, c: Command)
    ensures Plain(h, a + b) == Plain(h, a) + Plain(h, b)
    ensures Plain(h, [c]) == Each(c.key, if c.key in h then h[c.key] else [], c.payload)
  {
    PlainConcat(h, a, b);
    PlainStep(h, [], c);
    assert [] + [c] == [c];
    assert CallsOf(h, c) == Each(c.key, if c.key in h then h[c.key] else [], c.payload);
  }

  ghost predicate Disjoint(batches: Batches)
  {
    forall i, j | 0 <= i < j < |batches| :: batches[i] !! batches[j]
  }

  lemma {:induction false} DisjointCopies(batches: Batches, k: Key)
    requires Disjoint(batches)
    ensures Copies(batches, k) <= 1
  {
    if batches != [] {
      var n := |batches| - 1;
      DisjointCopies(batches[..n], k);
      CopiesExactly(batches[..n], k);
      if InSome(batches[..n], k) {
        var i :| 0 <= i < n && k in batches[..n][i];
        assert batches[i] !! batches[n];
      }
    }
  }

  /** With pairwise disjoint batches the handler calls are the same multiset as those of plain
      dispatch, and every key keeps its order. */
  lemma DisjointBatchesPermute(h: Handlers, batches: Batches, cmds: seq<Command>)
    requires Disjoint(batches)
    ensures multiset(Batched(h, batches, cmds)) == multiset(Plain(h, cmds))
    ensures forall k :: Project(Batched(h, batches, cmds), k) == Project(Plain(h, cmds), k)
  {
    hide Batched, Plain, Project;
    forall k ensures Times(batches, k) == 1 && Project(Batched(h, batches, cmds), k) == Project(Plain(h, cmds), k) {
      DisjointCopies(batches, k);
      BatchedConserves(h, batches, cmds, k);
      var p := Project(Plain(h, cmds), k);
      assert Repeat(p, 1) == Repeat(p, 0) + p == p;
    }
    forall x: Call ensures multiset(Batched(h, batches, cmds))[x] == multiset(Plain(h, cmds))[x] {
      BatchedCounts(h, batches, cmds, x);
      assert Times(batches, x.key) == 1;
    }
  }

  // ---------- The dispatcher objects ----------

  class Dispatcher {
    var handlers: Handlers
    var calls: seq<Call>  // the handler invocations made so far

    constructor ()
      ensures handlers == map[] && calls == []
    {
      handlers, calls := map[], [];
    }

    method AddHandler(key: Key, handler: Handler)
      modifies this`handlers
      ensures handlers == old(handlers)[key := Bucket(old(handlers), key) + [handler]]
    {
      var bucket := if key in handlers then handlers[key] else [];
      handlers := handlers[key := bucket + [handler]];
    }

    method Dispatch(c: Command)
      modifies this`calls
      ensures calls == old(calls) + CallsOf(handlers, c)
      ensures calls == old(calls) + Each(c.key, if c.key in handlers then handlers[c.key] else [], c.payload)
      ensures |calls| == |old(calls)| + if c.key in handlers then |handlers[c.key]| else 0
    {
      var bucket := if c.key in handlers then handlers[c.key] else [];
      var i := 0;
      while i < |bucket|
        invariant 0 <= i <= |bucket| && calls == old(calls) + CallsOf(handlers, c)[..i]
      {
        calls := calls + [Call(c.key, bucket[i], c.payload)];
        i := i + 1;
      }
    }

    method DispatchMultiple(cmds: seq<Command>)
      modifies this`calls
      ensures calls == old(calls) + Plain(handlers, cmds)
      ensures forall x :: multiset(calls)[x] == multiset(old(calls))[x] + Given(cmds, x) * Registered(handlers, x)
    {
      hide Plain, CallsOf, Each;
      assert Plain(handlers, cmds[..0]) == [] by { NothingPlain(handlers); }
      var i := 0;
      while i < |cmds|
        invariant 0 <= i <= |cmds| && calls == old(calls) + Plain(handlers, cmds[..i])
      {
        PlainStep(handlers, cmds[..i], cmds[i]);
        assert cmds[..i] + [cmds[i]] == cmds[..i + 1];
        Dispatch(cmds[i]);
        i := i + 1;
      }
      assert cmds[..i] == cmds;
      forall x { PlainCounts(handlers, cmds, x); }
    }
  }

  class BatchDispatcher {
    const dispatcher: Dispatcher
    var batches: Batches

    constructor (d: Dispatcher)
      ensures dispatcher == d && batches == []
    {
      dispatcher, batches := d, [];
    }

    method AddBatch(keys: set<Key>)
      modifies this`batches
      ensures batches == old(batches) + [keys]
    {
      batches := batches + [keys];
    }

    /** The single pass over the commands: every batch's commands and the rest, in order. */
    method Group(cmds: seq<Command>) returns (grouped: seq<seq<Command>>, rest: seq<Command>)
      ensures |grouped| == |batches| && forall j | 0 <= j < |batches| :: grouped[j] == Select(cmds, batches[j])
      ensures rest == Unbatched(cmds, batches)
    {
      grouped := seq(|batches|, _ => []);
      rest := [];
      var i := 0;
      while i < |cmds|
        invariant 0 <= i <= |cmds| && |grouped| == |batches|
        invariant forall j | 0 <= j < |batches| :: grouped[j] == Select(cmds[..i], batches[j])
        invariant rest == Unbatched(cmds[..i], batches)
      {
        var c := cmds[i];
        assert cmds[..i + 1][..i] == cmds[..i];
        ghost var before, after := cmds[..i], cmds[..i + 1];
        var found, j := false, 0;
        while j < |batches|
          invariant 0 <= j <= |batches| == |grouped|
          invariant found <==> exists m :: 0 <= m < j && c.key in batches[m]
          invariant forall m | 0 <= m < j :: grouped[m] == Select(after, batches[m])
          invariant forall m | j <= m < |batches| :: grouped[m] == Select(before, batches[m])
        {
          if c.key in batches[j] {
            grouped := grouped[j := grouped[j] + [c]];
            found := true;
          }
          j := j + 1;
        }
        if !found { rest := rest + [c]; }
        i := i + 1;
      }
      assert cmds[..i] == cmds;
    }

    method Dispatch(cmds: seq<Command>)
      modifies dispatcher`calls
      ensures dispatcher.calls == old(dispatcher.calls) + Batched(dispatcher.handlers, batches, cmds)
    {
      hide Select, Unbatched, BatchCalls;
      var grouped, rest := Group(cmds);
      ghost var h := dispatcher.handlers;
      assert BatchCalls(h, batches[..0], cmds) == [] by { NoBatchCalls(h, cmds); }
      var j := 0;
      while j < |batches|
        invariant 0 <= j <= |batches|
        invariant dispatcher.calls == old(dispatcher.calls) + BatchCalls(h, batches[..j], cmds)
      {
        assert batches[..j + 1] == batches[..j] + [batches[j]];
        BatchesSnoc(h, batches[..j], batches[j], cmds, 0);
        if |grouped[j]| > 0 { dispatcher.DispatchMultiple(grouped[j]); }
        j := j + 1;
      }
      assert batches[..j] == batches;
      if |rest| > 0 { dispatcher.DispatchMultiple(rest); }
    }
  }

  lemma NothingPlain(h: Handlers)
    ensures Plain(h, []) == []
  {
  }

  lemma NoBatchCalls(h: Handlers, cmds: seq<Command>)
    ensures BatchCalls(h, [], cmds) == []
  {
  }
}

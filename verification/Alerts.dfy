/**
 The system alert table (server.py and client.py of the system_alerts package): an
 authoritative server that refreshes lifetimes, suppresses unchanged raises and expires
 alerts, and any number of clients that mirror its table from the changes it publishes.
 */
module Alerts {
  const FATAL := 3

  datatype Ttl = Finite(seconds: real) | Infinite

  datatype Alert = Alert(level: int, src: string, code: int, ttl: Ttl, subcode: int, brief: string, description: string)

  datatype Change = Raised(alert: Alert) | Cleared(alert: Alert)

  type Table = map<int, Alert>

  datatype Server = Server(active: Table, started: map<int, real>)

  const EMPTY := Server(map[], map[])

  /** What happens to the server: a raise, a clear that carries a client's alert, a clear by
      code, an expiry sweep that visits the expired alerts in some order. */
  datatype Op =
    | Raise(alert: Alert, now: real)
    | Clear(alert: Alert)
    | ClearCode(code: int)
    | Sweep(now: real, order: seq<int>)

  predicate HasExpired(a: Alert, raisedAt: real, now: real)
  {
    a.ttl.Finite? && now - raisedAt >= a.ttl.seconds
  }

  function Expired(s: Server, now: real): set<int>
  {
    set c | c in s.active && c in s.started && HasExpired(s.active[c], s.started[c], now)
  }

  function Drop(s: Server, code: int): Server
  {
    Server(s.active - {code}, s.started - {code})
  }

  /** Clears the given codes one after the other, publishing each alert that was active. */
  function DropAll(s: Server, order: seq<int>): (Server, seq<Change>)
    decreases |order|
  {
    if order == [] then (s, [])
    else if order[0] !in s.active then DropAll(s, order[1..])
    else
      var (r, rest) := DropAll(Drop(s, order[0]), order[1..]);
      (r, [Cleared(s.active[order[0]])] + rest)
  }

  function Apply(s: Server, op: Op): (Server, seq<Change>)
  {
    match op
    case Raise(a, now) =>
      var r := Server(s.active[a.code := a], s.started[a.code := now]);
      if a.code in s.active && s.active[a.code] == a then (r, []) else (r, [Raised(a)])
    case Clear(a) => if a.code in s.active then (Drop(s, a.code), [Cleared(a)]) else (s, [])
    case ClearCode(c) => if c in s.active then (Drop(s, c), [Cleared(s.active[c])]) else (s, [])
    case Sweep(_, order) => DropAll(s, order)
  }

  function Codes(order: seq<int>): set<int> { set c | c in order }

  /** A sweep visits exactly the alerts that have expired. */
  ghost predicate Legal(s: Server, op: Op)
  {
    op.Sweep? ==> Codes(op.order) == Expired(s, op.now)
  }

  function After(h: seq<Op>): Server
  {
    if h == [] then EMPTY else Apply(After(h[..|h| - 1]), h[|h| - 1]).0
  }

  ghost predicate IsHistory(h: seq<Op>)
  {
    h == [] || (IsHistory(h[..|h| - 1]) && Legal(After(h[..|h| - 1]), h[|h| - 1]))
  }

  // ---------- The table is what the history says ----------

  /** Does this later operation end the alert raised by r? */
  predicate Ends(r: Op, op: Op)
    requires r.Raise?
  {
    match op
    case Raise(b, _) => b.code == r.alert.code
    case Clear(b) => b.code == r.alert.code
    case ClearCode(c) => c == r.alert.code
    case Sweep(now, _) => r.alert.ttl.Finite? && now - r.now >= r.alert.ttl.seconds
  }

  /** The i-th operation raised an alert that nothing since has ended. */
  ghost predicate Standing(h: seq<Op>, i: int)
  {
    0 <= i < |h| && h[i].Raise? && forall j | i < j < |h| :: !Ends(h[i], h[j])
  }

  /** Clearing codes removes them from both tables and touches no other entry. */
  lemma {:induction false} DropAllRemoves(s: Server, order: seq<int>)
    requires s.active.Keys == s.started.Keys
    ensures var r := DropAll(s, order).0;
            && r.active == s.active - Codes(order)
            && r.started == s.started - Codes(order)
    decreases |order|
  {
    if order != [] {
      var t := if order[0] in s.active then Drop(s, order[0]) else s;
      DropAllRemoves(t, order[1..]);
      assert order == [order[0]] + order[1..];
      assert Codes(order) == {order[0]} + Codes(order[1..]);
    }
  }

  /** Both tables hold exactly the standing alerts, each with the time of its latest raise. */
  ghost predicate Tells(s: Server, h: seq<Op>)
  {
    && s.active.Keys == s.started.Keys
    && (forall i | Standing(h, i) :: Records(s, h[i]))
    && (forall c | c in s.active :: exists i :: Standing(h, i) && h[i].alert.code == c)
  }

  ghost predicate Records(s: Server, r: Op)
    requires r.Raise?
  {
    && r.alert.code in s.active && s.active[r.alert.code] == r.alert
    && r.alert.code in s.started && s.started[r.alert.code] == r.now
  }

  lemma StandingBefore(h: seq<Op>, op: Op, i: int)
    requires 0 <= i < |h|
    ensures Standing(h + [op], i) <==> Standing(h, i) && !Ends(h[i], op)
  {
    var g := h + [op];
    assert forall j | 0 <= j < |h| :: g[j] == h[j];
    if Standing(h, i) && !Ends(h[i], op) {
      assert forall j | i < j < |g| :: !Ends(g[i], g[j]);
    }
    if Standing(g, i) {
      assert !Ends(g[i], g[|h|]);
      forall j | i < j < |h| ensures !Ends(h[i], h[j]) { assert !Ends(g[i], g[j]); }
    }
  }

  /** The effect of an operation on the tables, entry by entry. */
  lemma ApplyEntries(s: Server, op: Op)
    requires s.active.Keys == s.started.Keys && Legal(s, op)
    ensures var r := Apply(s, op).0;
            && r.active.Keys == r.started.Keys
            && (forall c | c in r.active && !(op.Raise? && op.alert.code == c) ::
                  c in s.active && r.active[c] == s.active[c] && r.started[c] == s.started[c])
            && (forall c | c in s.active && c !in r.active ::
                  || (op.Clear? && op.alert.code == c)
                  || (op.ClearCode? && op.code == c)
                  || (op.Sweep? && c in Expired(s, op.now)))
            && (op.Sweep? ==> r.active.Keys !! Expired(s, op.now))
            && (op.Clear? ==> op.alert.code !in r.active) && (op.ClearCode? ==> op.code !in r.active)
  {
    match op
    case Raise(_, _) =>
    case Clear(_) =>
    case ClearCode(_) =>
    case Sweep(_, order) => DropAllRemoves(s, order);
  }

  lemma StepTells(s: Server, h: seq<Op>, op: Op)
    requires Tells(s, h) && Legal(s, op)
    ensures Tells(Apply(s, op).0, h + [op])
  {
    var r, g := Apply(s, op).0, h + [op];
    ApplyEntries(s, op);
    forall i | Standing(g, i)
      ensures Records(r, g[i])
    {
      if i < |h| { StandingBefore(h, op, i); }
    }
    forall c | c in r.active
      ensures exists i :: Standing(g, i) && g[i].alert.code == c
    {
      if op.Raise? && op.alert.code == c {
        assert Standing(g, |h|);
      } else {
        var i :| Standing(h, i) && h[i].alert.code == c;
        StandingBefore(h, op, i);
        assert Standing(g, i);
      }
    }
  }

  /** After every history: the alert and start-time tables have the same keys; an alert is
      active exactly when it was raised and since then neither replaced, cleared, nor swept
      at least its TTL after its latest raise. */
  lemma {:induction false} TableIsStanding(h: seq<Op>)
    requires IsHistory(h)
    ensures Tells(After(h), h)
  {
    if h != [] {
      var g, op := h[..|h| - 1], h[|h| - 1];
      TableIsStanding(g);
      StepTells(After(g), g, op);
      assert h == g + [op];
    }
  }

  predicate Holds(s: Server, a: Alert) { a.code in s.active && s.active[a.code] == a }

  /** The table holds exactly this alert, so that raising it again is no change, exactly when an
      identical raise still stands. */
  lemma HoldsExactly(h: seq<Op>, a: Alert)
    requires IsHistory(h)
    ensures Holds(After(h), a) <==> exists i :: Standing(h, i) && h[i].alert == a
  {
    TableIsStanding(h);
    if Holds(After(h), a) {
      var i :| Standing(h, i) && h[i].alert.code == a.code;
      assert Records(After(h), h[i]);
    }
    if i :| Standing(h, i) && h[i].alert == a {
      assert Records(After(h), h[i]);
    }
  }

  /** An infinite-TTL alert outlives any number of sweeps: it leaves only when its code is
      raised again or cleared. */
  lemma InfiniteStays(h: seq<Op>, later: seq<Op>, c: int)
    requires IsHistory(h) && IsHistory(h + later)
    requires c in After(h).active && After(h).active[c].ttl.Infinite?
    requires forall j | 0 <= j < |later| ::
               && (later[j].Raise? || later[j].Clear? ==> later[j].alert.code != c)
               && (later[j].ClearCode? ==> later[j].code != c)
    ensures c in After(h + later).active && After(h + later).active[c] == After(h).active[c]
  {
    hide After, IsHistory;
    var g := h + later;
    TableIsStanding(h);
    TableIsStanding(g);
    var i :| Standing(h, i) && h[i].alert.code == c;
    assert g[i] == h[i];
    forall j | i < j < |g| ensures !Ends(g[i], g[j]) {
      if j >= |h| { assert g[j] == later[j - |h|]; }
    }
    assert Standing(g, i) && Records(After(g), g[i]) && Records(After(h), h[i]);
  }

  /** A sweep removes exactly the alerts of finite TTL whose latest raise is that long ago. */
  lemma SweepExactly(h: seq<Op>, now: real, order: seq<int>, i: int)
    requires IsHistory(h) && Legal(After(h), Sweep(now, order)) && Standing(h, i)
    ensures h[i].alert.code in Apply(After(h), Sweep(now, order)).0.active <==>
            h[i].alert.ttl.Infinite? || now - h[i].now < h[i].alert.ttl.seconds
  {
    TableIsStanding(h);
    DropAllRemoves(After(h), order);
    assert Records(After(h), h[i]);
  }

  // ---------- What is published ----------

  /** An identical raise stands at the end of this history. */
  ghost predicate StandsAs(h: seq<Op>, a: Alert) { exists i :: Standing(h, i) && h[i].alert == a }

  /** An alert that stands and has outlived its TTL at this moment. */
  ghost predicate Overdue(h: seq<Op>, a: Alert, now: real)
  {
    exists i :: Standing(h, i) && h[i].alert == a && a.ttl.Finite? && now - h[i].now >= a.ttl.seconds
  }

  lemma {:induction false} DropAllPublishes(s: Server, order: seq<int>, x: Change)
    requires WellKeyed(s.active)
    ensures multiset(DropAll(s, order).1)[x] ==
            if x.Cleared? && x.alert.code in order && Holds(s, x.alert) then 1 else 0
    decreases |order|
  {
    if order != [] {
      assert order == [order[0]] + order[1..];
      if order[0] in s.active {
        var out := DropAll(Drop(s, order[0]), order[1..]).1;
        DropAllPublishes(Drop(s, order[0]), order[1..], x);
        assert DropAll(s, order).1 == [Cleared(s.active[order[0]])] + out;
      } else {
        DropAllPublishes(s, order[1..], x);
      }
    }
  }

  lemma TableHolds(h: seq<Op>, a: Alert)
    requires IsHistory(h)
    ensures Holds(After(h), a) <==> StandsAs(h, a)
    ensures WellKeyed(After(h).active)
  {
    HoldsExactly(h, a);
    TableIsStanding(h);
    forall c | c in After(h).active ensures After(h).active[c].code == c {
      var i :| Standing(h, i) && h[i].alert.code == c;
      assert Records(After(h), h[i]);
    }
  }

  /** The operation calls for this change, told from the raises that stand: a raise, for itself unless
      an identical one stands; a clear that carries an alert, for that alert if any of its code
      stands; a clear by code, for the alert of that code that stands; a sweep, for each alert that
      has outlived its TTL. */
  ghost predicate CallsFor(h: seq<Op>, op: Op, x: Change)
  {
    match op
    case Raise(a, _) => x == Raised(a) && !StandsAs(h, a)
    case Clear(a) => x == Cleared(a) && exists i :: Standing(h, i) && h[i].alert.code == a.code
    case ClearCode(c) => x.Cleared? && x.alert.code == c && StandsAs(h, x.alert)
    case Sweep(now, _) => x.Cleared? && Overdue(h, x.alert, now)
  }

  /** After every history an operation publishes exactly the changes it calls for, each once. */
  lemma PublishesExactly(h: seq<Op>, op: Op, x: Change)
    requires IsHistory(h) && Legal(After(h), op)
    ensures multiset(Apply(After(h), op).1)[x] == if CallsFor(h, op, x) then 1 else 0
  {
    var s := After(h);
    TableHolds(h, x.alert);
    TableIsStanding(h);
    match op
    case Raise(a, _) => TableHolds(h, a);
    case Clear(a) => CodeStands(h, a.code);
    case ClearCode(c) =>
    case Sweep(now, order) =>
      DropAllPublishes(s, order, x);
      assert x.alert.code in order <==> x.alert.code in Codes(order);
      OverdueExactly(h, x.alert, now);
  }

  lemma CodeStands(h: seq<Op>, c: int)
    requires IsHistory(h)
    ensures c in After(h).active <==> exists i :: Standing(h, i) && h[i].alert.code == c
  {
    TableIsStanding(h);
    if i :| Standing(h, i) && h[i].alert.code == c { assert Records(After(h), h[i]); }
  }

  lemma OverdueExactly(h: seq<Op>, a: Alert, now: real)
    requires IsHistory(h)
    ensures Overdue(h, a, now) <==> Holds(After(h), a) && a.code in Expired(After(h), now)
  {
    TableIsStanding(h);
    if i :| Standing(h, i) && h[i].alert == a && a.ttl.Finite? && now - h[i].now >= a.ttl.seconds {
      assert Records(After(h), h[i]);
    }
    if Holds(After(h), a) && a.code in Expired(After(h), now) {
      var i :| Standing(h, i) && h[i].alert.code == a.code;
      assert Records(After(h), h[i]);
    }
  }

  // ---------- Replication ----------

  /** A client's table, and the published changes it has not handled yet. */
  datatype Client = Client(table: Table, queue: seq<Change>)

  function Handle(t: Table, c: Change): Table
  {
    match c
    case Raised(a) => t[a.code := a]
    case Cleared(a) => t - {a.code}
  }

  function Fold(t: Table, q: seq<Change>): Table
    decreases |q|
  {
    if q == [] then t else Fold(Handle(t, q[0]), q[1..])
  }

  lemma {:induction false} FoldConcat(t: Table, q: seq<Change>, r: seq<Change>)
    ensures Fold(t, q + r) == Fold(Fold(t, q), r)
    decreases |q|
  {
    if q == [] {
      assert q + r == r;
    } else {
      FoldConcat(Handle(t, q[0]), q[1..], r);
      assert (q + r)[1..] == q[1..] + r;
    }
  }

  datatype System = System(server: Server, clients: seq<Client>)

  datatype Action = Do(op: Op) | Deliver(client: nat)

  ghost predicate Enabled(y: System, a: Action)
  {
    match a
    case Do(op) => Legal(y.server, op)
    case Deliver(k) => k < |y.clients| && y.clients[k].queue != []
  }

  function Step(y: System, a: Action): System
    requires Enabled(y, a)
  {
    match a
    case Do(op) =>
      var (s, out) := Apply(y.server, op);
      System(s, seq(|y.clients|, k requires 0 <= k < |y.clients| => y.clients[k].(queue := y.clients[k].queue + out)))
    case Deliver(k) =>
      var c := y.clients[k];
      y.(clients := y.clients[k := Client(Handle(c.table, c.queue[0]), c.queue[1..])])
  }

  function Init(clients: nat): System { System(EMPTY, seq(clients, _ => Client(map[], []))) }

  ghost predicate IsRun(y: System, run: seq<Action>)
    decreases |run|
  {
    run == [] || (Enabled(y, run[0]) && IsRun(Step(y, run[0]), run[1..]))
  }

  function Run(y: System, run: seq<Action>): System
    requires IsRun(y, run)
    decreases |run|
  {
    if run == [] then y else Run(Step(y, run[0]), run[1..])
  }

  /** The published changes replay what happened to the server's table. */
  lemma {:induction false} DropAllReplays(s: Server, order: seq<int>)
    requires WellKeyed(s.active)
    ensures Fold(s.active, DropAll(s, order).1) == DropAll(s, order).0.active && WellKeyed(DropAll(s, order).0.active)
    decreases |order|
  {
    if order != [] {
      if order[0] in s.active {
        var out := DropAll(Drop(s, order[0]), order[1..]).1;
        DropAllReplays(Drop(s, order[0]), order[1..]);
        assert ([Cleared(s.active[order[0]])] + out)[1..] == out;
      } else {
        DropAllReplays(s, order[1..]);
      }
    }
  }

  /** Every alert is filed under its own code. */
  ghost predicate WellKeyed(t: Table) { forall c | c in t :: t[c].code == c }

  lemma ApplyReplays(s: Server, op: Op)
    requires WellKeyed(s.active)
    ensures var (r, out) := Apply(s, op); Fold(s.active, out) == r.active && WellKeyed(r.active)
  {
    match op
    case Raise(a, _) => assert a.code in s.active && s.active[a.code] == a ==> s.active[a.code := a] == s.active;
    case Clear(_) =>
    case ClearCode(_) =>
    case Sweep(_, order) => DropAllReplays(s, order);
  }

  ghost predicate Mirrored(y: System)
  {
    WellKeyed(y.server.active) &&
    forall k | 0 <= k < |y.clients| :: Fold(y.clients[k].table, y.clients[k].queue) == y.server.active
  }

  lemma StepMirrors(y: System, a: Action)
    requires Mirrored(y) && Enabled(y, a)
    ensures Mirrored(Step(y, a)) && |Step(y, a).clients| == |y.clients|
  {
    match a
    case Do(op) =>
      ApplyReplays(y.server, op);
      var out := Apply(y.server, op).1;
      forall k | 0 <= k < |y.clients|
        ensures Fold(y.clients[k].table, y.clients[k].queue + out) == Step(y, a).server.active
      {
        FoldConcat(y.clients[k].table, y.clients[k].queue, out);
      }
    case Deliver(_) =>
  }

  lemma {:induction false} RunMirrors(y: System, run: seq<Action>)
    requires Mirrored(y) && IsRun(y, run)
    ensures Mirrored(Run(y, run)) && |Run(y, run).clients| == |y.clients|
    decreases |run|
  {
    if run != [] {
      StepMirrors(y, run[0]);
      RunMirrors(Step(y, run[0]), run[1..]);
    }
  }

  /** In every reachable state and for any number of clients: folding a client's undelivered
      changes into its table gives the server's table. Suppressing unchanged raises never
      makes a mirror diverge. */
  lemma Replication(clients: nat, run: seq<Action>, k: nat)
    requires IsRun(Init(clients), run) && k < clients
    ensures var y := Run(Init(clients), run);
            && |y.clients| == clients
            && Fold(y.clients[k].table, y.clients[k].queue) == y.server.active
            && (y.clients[k].queue == [] ==> y.clients[k].table == y.server.active)
  {
    RunMirrors(Init(clients), run);
  }

  /** Once a client has been handed the changes that wait for it, one by one, its table is the server's,
      and nothing else has changed. */
  lemma {:induction false} CatchesUp(y: System, k: nat)
    requires Mirrored(y) && k < |y.clients|
    ensures var deliveries := seq(|y.clients[k].queue|, _ => Deliver(k));
            && IsRun(y, deliveries)
            && Run(y, deliveries) == y.(clients := y.clients[k := Client(y.server.active, [])])
    decreases |y.clients[k].queue|
  {
    var c := y.clients[k];
    var deliveries := seq(|c.queue|, _ => Deliver(k));
    if c.queue == [] {
      assert y.clients[k := c] == y.clients;
    } else {
      var z := Step(y, Deliver(k));
      StepMirrors(y, Deliver(k));
      CatchesUp(z, k);
      assert deliveries[1..] == seq(|c.queue| - 1, _ => Deliver(k));
      assert z.clients[k := Client(y.server.active, [])] == y.clients[k := Client(y.server.active, [])];
    }
  }

  // ---------- The server and client objects ----------

  class SysAlertsServer {
    var active: Table
    var started: map<int, real>
    var published: seq<Change>

    ghost function View(): Server
      reads this
    {
      Server(active, started)
    }

    constructor ()
      ensures View() == EMPTY && published == []
    {
      active, started, published := map[], map[], [];
    }

    /** Returns whether a change was published. */
    method ApplyRaise(alert: Alert, now: real) returns (changed: bool)
      modifies this
      ensures var (s, out) := Apply(old(View()), Raise(alert, now));
              View() == s && published == old(published) + out && changed == (out != [])
    {
      var same := alert.code in active && active[alert.code] == alert;
      active := active[alert.code := alert];
      started := started[alert.code := now];
      if same { return false; }
      published := published + [Raised(alert)];
      return true;
    }

    method ApplyClear(alert: Alert) returns (changed: bool)
      modifies this
      ensures var (s, out) := Apply(old(View()), Clear(alert));
              View() == s && published == old(published) + out && changed == (out != [])
    {
      if alert.code !in active { return false; }
      active := active - {alert.code};
      started := started - {alert.code};
      published := published + [Cleared(alert)];
      return true;
    }

    method ClearAlertFromCode(code: int)
      requires WellKeyed(active)
      modifies this
      ensures var (s, out) := Apply(old(View()), ClearCode(code));
              View() == s && published == old(published) + out && WellKeyed(active)
    {
      if code !in active { return; }
      var _ := ApplyClear(active[code]);
    }

    /** `visit` is the table's iteration order. The sweep is a legal `Sweep` operation. */
    method ExpireAlerts(now: real, visit: seq<int>) returns (expired: seq<int>)
      requires WellKeyed(active) && active.Keys == started.Keys && Codes(visit) == active.Keys
      modifies this
      ensures Legal(old(View()), Sweep(now, expired)) && WellKeyed(active) && active.Keys == started.Keys
      ensures var (s, out) := Apply(old(View()), Sweep(now, expired));
              View() == s && published == old(published) + out
    {
      expired := Collect(now, visit);
      var i := 0;
      while i < |expired|
        invariant 0 <= i <= |expired| && WellKeyed(active)
        invariant View() == DropAll(old(View()), expired[..i]).0
        invariant published == old(published) + DropAll(old(View()), expired[..i]).1
      {
        DropAllSnoc(old(View()), expired[..i], expired[i]);
        assert expired[..i] + [expired[i]] == expired[..i + 1];
        ClearAlertFromCode(expired[i]);
        i := i + 1;
      }
      assert expired[..i] == expired;
      DropAllRemoves(old(View()), expired);
    }

    /** The codes, in iteration order, whose alert has outlived its TTL. */
    method Collect(now: real, visit: seq<int>) returns (expired: seq<int>)
      requires active.Keys == started.Keys && Codes(visit) == active.Keys
      ensures Codes(expired) == Expired(View(), now)
    {
      expired := [];
      for i := 0 to |visit|
        invariant forall c :: c in expired <==> c in visit[..i] && HasExpired(active[c], started[c], now)
      {
        assert visit[i] in Codes(visit);
        assert visit[..i + 1] == visit[..i] + [visit[i]];
        if HasExpired(active[visit[i]], started[visit[i]], now) {
          expired := expired + [visit[i]];
        }
      }
      assert visit[..|visit|] == visit;
      forall c ensures c in Codes(expired) <==> c in Expired(View(), now) {
        assert c in visit <==> c in Codes(visit);
      }
    }
  }

  /** Clearing one more code at the end. */
  lemma {:induction false} DropAllSnoc(s: Server, a: seq<int>, c: int)
    ensures var (r, out) := DropAll(s, a);
            && DropAll(s, a + [c]).0 == Apply(r, ClearCode(c)).0
            && DropAll(s, a + [c]).1 == out + Apply(r, ClearCode(c)).1
    decreases |a|
  {
    if a == [] {
      assert a + [c] == [c] && [c][1..] == [];
      if c in s.active { assert [Cleared(s.active[c])] + [] == [Cleared(s.active[c])]; }
    } else {
      assert (a + [c])[1..] == a[1..] + [c];
      DropAllSnoc(if a[0] in s.active then Drop(s, a[0]) else s, a[1..], c);
      if a[0] in s.active {
        var (r, out) := DropAll(Drop(s, a[0]), a[1..]);
        var x := Cleared(s.active[a[0]]);
        assert [x] + (out + Apply(r, ClearCode(c)).1) == ([x] + out) + Apply(r, ClearCode(c)).1;
      }
    }
  }

  class SysAlertsClient {
    var active: Table

    constructor ()
      ensures active == map[]
    {
      active := map[];
    }

    method HandleChange(c: Change)
      modifies this
      ensures active == Handle(old(active), c)
    {
      match c
      case Raised(a) => active := active[a.code := a];
      case Cleared(a) => active := active - {a.code};
    }
  }
}

/**
 The system state projection (state_machine package and supervisor_node.py of the
 orchestration package): a table-checked state machine driven by alert changes, the startup
 routine and shutdown, on top of the alert server.
 */
module SystemFsm {
  import opened Options
  import opened Alerts

  datatype State = BOOTING | STANDBY | CONNECTING | ACTIVE | DISCONNECTING | FAULT | SHUTDOWN

  datatype Event =
    | SESSION_CREATION_REQUESTED
    | SESSION_CREATED
    | SESSION_CREATION_FAILED
    | DISCONNECT_REQUESTED
    | DISCONNECTED
    | FATAL_FAULT

  const INF_SESSION_CREATION_REQUEST := 100
  const INF_SESSION_CLOSURE_REQUEST := 110
  const INF_SESSION_CREATION_OK := 120
  const INF_SESSION_CLOSURE_OK := 130
  const ERR_SESSION_CREATION_FAILED := 140

  function MapAlert(c: Change): Option<Event>
  {
    if c.Cleared? then None
    else if c.alert.level == FATAL then Some(FATAL_FAULT)
    else if c.alert.code == INF_SESSION_CREATION_REQUEST then Some(SESSION_CREATION_REQUESTED)
    else if c.alert.code == INF_SESSION_CREATION_OK then Some(SESSION_CREATED)
    else if c.alert.code == ERR_SESSION_CREATION_FAILED then Some(SESSION_CREATION_FAILED)
    else if c.alert.code == INF_SESSION_CLOSURE_REQUEST then Some(DISCONNECT_REQUESTED)
    else if c.alert.code == INF_SESSION_CLOSURE_OK then Some(DISCONNECTED)
    else None
  }

  /** The transition table built by SystemFSM.__init__. */
  function Allowed(s: State): set<State>
  {
    match s
    case BOOTING => {STANDBY, FAULT}
    case STANDBY => {CONNECTING, FAULT}
    case CONNECTING => {STANDBY, ACTIVE, FAULT}
    case ACTIVE => {DISCONNECTING, FAULT}
    case DISCONNECTING => {STANDBY, FAULT}
    case FAULT => {SHUTDOWN}
    case SHUTDOWN => {}
  }

  datatype Result = Result(prev: State, next: State, legal: bool)

  /** change_state: None stands for its ValueError. */
  function ChangeState(s: State, to: State): Option<Result>
  {
    if to in Allowed(s) then Some(Result(s, to, true)) else None
  }

  function ForceChangeState(s: State, to: State): Result
  {
    var r := ChangeState(s, to);
    if r.Some? then r.value else Result(s, to, false)
  }

  function ProcessEvent(s: State, e: Event): Option<Result>
  {
    var noop := Some(Result(s, s, true));
    if e.FATAL_FAULT? then (if s.FAULT? then noop else Some(ForceChangeState(s, FAULT)))
    else match s
      case STANDBY => if e.SESSION_CREATION_REQUESTED? then ChangeState(s, CONNECTING) else noop
      case CONNECTING =>
        if e.SESSION_CREATED? then ChangeState(s, ACTIVE)
        else if e.SESSION_CREATION_FAILED? then ChangeState(s, STANDBY)
        else noop
      case ACTIVE =>
        if e.DISCONNECT_REQUESTED? then ChangeState(s, DISCONNECTING)
        else if e.DISCONNECTED? then Some(ForceChangeState(s, STANDBY))
        else noop
      case DISCONNECTING => if e.DISCONNECTED? then ChangeState(s, STANDBY) else noop
      case _ => noop
  }

  /** The table, by where it leads: to FAULT from every state that is not down, to SHUTDOWN from FAULT
      alone, to STANDBY from startup and from either end of a session, round one session and nowhere
      else. */
  lemma AllowedExactly(s: State, to: State)
    ensures to in Allowed(s) <==>
            match to
            case BOOTING => false
            case STANDBY => s in {BOOTING, CONNECTING, DISCONNECTING}
            case CONNECTING => s == STANDBY
            case ACTIVE => s == CONNECTING
            case DISCONNECTING => s == ACTIVE
            case FAULT => !Down(s)
            case SHUTDOWN => s == FAULT
  {
  }

  /** process_event never raises, and flags exactly two transitions as illegal. Every other
      change of state it makes is in the table. */
  lemma ProcessEventTotal(s: State, e: Event)
    ensures var r := ProcessEvent(s, e);
            && r.Some? && r.value.prev == s
            && (!r.value.legal <==> (s.ACTIVE? && e.DISCONNECTED?) || (s.SHUTDOWN? && e.FATAL_FAULT?))
            && (r.value.legal && r.value.next != s ==> r.value.next in Allowed(s))
            && (!r.value.legal ==> (s, r.value.next) in {(ACTIVE, STANDBY), (SHUTDOWN, FAULT)})
  {
  }

  predicate Down(s: State) { s.FAULT? || s.SHUTDOWN? }

  // ---------- The supervisor ----------

  /** The alert server and the state machine its change callback drives. */
  datatype Supervisor = Supervisor(server: Server, state: State, faultRef: Option<Alert>)

  datatype Action =
    | Change(op: Op)
    | SpinupDone(ok: bool)  // the startup routine reaches its state change
    | Shutdown              // shutdown_system reaches its state change

  function OnChange(v: Supervisor, c: Change): Supervisor
  {
    match MapAlert(c)
    case None => v
    case Some(e) =>
      ProcessEventTotal(v.state, e);
      v.(state := ProcessEvent(v.state, e).value.next, faultRef := if e.FATAL_FAULT? then Some(c.alert) else v.faultRef)
  }

  function OnChanges(v: Supervisor, cs: seq<Change>): Supervisor
    decreases |cs|
  {
    if cs == [] then v else OnChanges(OnChange(v, cs[0]), cs[1..])
  }

  function Step(v: Supervisor, a: Action): Supervisor
  {
    match a
    case Change(op) =>
      var (s, out) := Apply(v.server, op);
      OnChanges(v, out).(server := s)
    case SpinupDone(ok) =>
      // change_state may raise: the routine then ends and the state stays
      var r := ChangeState(v.state, if ok then STANDBY else FAULT);
      if r.Some? then v.(state := r.value.next) else v
    case Shutdown => v.(state := ForceChangeState(v.state, SHUTDOWN).next)
  }

  const BOOT := Supervisor(EMPTY, BOOTING, None)

  function After(v: Supervisor, run: seq<Action>): Supervisor
    decreases |run|
  {
    if run == [] then v else After(Step(v, run[0]), run[1..])
  }

  lemma {:induction false} OnChangesDown(v: Supervisor, cs: seq<Change>)
    ensures Down(v.state) ==> Down(OnChanges(v, cs).state)
    ensures (exists c | c in cs :: MapAlert(c) == Some(FATAL_FAULT)) ==> Down(OnChanges(v, cs).state)
    decreases |cs|
  {
    if cs != [] {
      OnChangesDown(OnChange(v, cs[0]), cs[1..]);
      assert forall c | c in cs :: c == cs[0] || c in cs[1..];
    }
  }

  /** Once the system state is FAULT or SHUTDOWN it never leaves that pair, in every
      interleaving of alert changes, startup and shutdown. */
  lemma {:induction false} DownForever(v: Supervisor, run: seq<Action>)
    requires Down(v.state)
    ensures Down(After(v, run).state)
    decreases |run|
  {
    if run != [] {
      if run[0].Change? { OnChangesDown(v, Apply(v.server, run[0].op).1); }
      DownForever(Step(v, run[0]), run[1..]);
    }
  }

  /** A fatal alert in the table means the system is already down. */
  ghost predicate FatalMeansDown(v: Supervisor)
  {
    (exists c | c in v.server.active :: v.server.active[c].level == FATAL) ==> Down(v.state)
  }

  lemma {:induction false} DropAllShrinks(s: Server, order: seq<int>)
    ensures forall c | c in DropAll(s, order).0.active :: c in s.active && DropAll(s, order).0.active[c] == s.active[c]
    decreases |order|
  {
    if order != [] { DropAllShrinks(if order[0] in s.active then Drop(s, order[0]) else s, order[1..]); }
  }

  lemma StepFatal(v: Supervisor, a: Action)
    requires FatalMeansDown(v)
    ensures FatalMeansDown(Step(v, a))
    ensures a.Change? && a.op.Raise? && a.op.alert.level == FATAL ==> Down(Step(v, a).state)
  {
    match a
    case SpinupDone(_) =>
    case Shutdown =>
    case Change(op) =>
      var (s, out) := Apply(v.server, op);
      OnChangesDown(v, out);
      if op.Sweep? { DropAllShrinks(v.server, op.order); }
      if op.Raise? && op.alert.level == FATAL {
        if out != [] { assert Raised(op.alert) in out; }
      }
  }

  /** Although unchanged raises are suppressed and never reach the state machine: whenever a
      fatal alert has been raised at any point of a run from boot, the system is in FAULT or
      SHUTDOWN at its end. */
  lemma {:induction false} FatalRaiseTakesDown(v: Supervisor, run: seq<Action>, k: nat)
    requires FatalMeansDown(v)
    requires k < |run| && run[k].Change? && run[k].op.Raise? && run[k].op.alert.level == FATAL
    ensures Down(After(v, run).state)
    decreases |run|
  {
    StepFatal(v, run[0]);
    if k == 0 {
      DownForever(Step(v, run[0]), run[1..]);
    } else {
      FatalRaiseTakesDown(Step(v, run[0]), run[1..], k - 1);
    }
  }

  lemma BootIsClean()
    ensures FatalMeansDown(BOOT) && !Down(BOOT.state)
  {
  }

  // ---------- Session alerts ----------

  /** Where a non-fatal alert of this code takes the system, if it awaits it. */
  function Awaited(s: State, code: int): Option<State>
  {
    if s.STANDBY? && code == INF_SESSION_CREATION_REQUEST then Some(CONNECTING)
    else if s.CONNECTING? && code == INF_SESSION_CREATION_OK then Some(ACTIVE)
    else if s.CONNECTING? && code == ERR_SESSION_CREATION_FAILED then Some(STANDBY)
    else if s.ACTIVE? && code == INF_SESSION_CLOSURE_REQUEST then Some(DISCONNECTING)
    else if (s.ACTIVE? || s.DISCONNECTING?) && code == INF_SESSION_CLOSURE_OK then Some(STANDBY)
    else None
  }

  function Next(s: State, a: Alert): State
  {
    if a.level == FATAL then FAULT else if Awaited(s, a.code).Some? then Awaited(s, a.code).value else s
  }

  /** In every state and of every alert: a raise that is a mere repetition of an active alert is
      suppressed and moves nothing; any other takes the system where the alert says. */
  lemma RaiseDrives(v: Supervisor, a: Alert, now: real)
    ensures Step(v, Change(Raise(a, now))).state == if Holds(v.server, a) then v.state else Next(v.state, a)
  {
    var out := Apply(v.server, Raise(a, now)).1;
    if !Holds(v.server, a) {
      assert out == [Raised(a)] && out[1..] == [];
      assert OnChanges(v, out) == OnChange(v, Raised(a));
    }
  }

  /** In terms of what happened: in the state that awaits it, a raise moves the system exactly when
      no identical raise stands, that is, when each earlier one has since been cleared, replaced or
      swept its TTL after. */
  lemma AwaitedMovesExactly(v: Supervisor, h: seq<Op>, a: Alert, now: real)
    requires IsHistory(h) && v.server == Alerts.After(h) && a.level != FATAL && Awaited(v.state, a.code).Some?
    ensures var s := Step(v, Change(Raise(a, now))).state;
            && (s != v.state <==> !exists i :: Standing(h, i) && h[i].alert == a)
            && (s != v.state ==> Some(s) == Awaited(v.state, a.code))
  {
    RaiseDrives(v, a, now);
    HoldsExactly(h, a);
  }

  /** The alerts of one session. */
  datatype Session = Session(request: Alert, ok: Alert, closeRequest: Alert, closed: Alert)
  {
    ghost predicate Valid()
    {
      && request.code == INF_SESSION_CREATION_REQUEST && ok.code == INF_SESSION_CREATION_OK
      && closeRequest.code == INF_SESSION_CLOSURE_REQUEST && closed.code == INF_SESSION_CLOSURE_OK
      && forall a | a in Alerts() :: a.level != FATAL
    }

    function Alerts(): seq<Alert> { [request, ok, closeRequest, closed] }
  }

  /** Raising an alert changes nothing about those of other codes. */
  lemma RaiseLeavesOthers(v: Supervisor, a: Alert, now: real, b: Alert)
    requires b.code != a.code
    ensures Holds(Step(v, Change(Raise(a, now))).server, b) <==> Holds(v.server, b)
  {
  }

  /** The session's four alerts take the system through CONNECTING, ACTIVE and DISCONNECTING back
      to STANDBY. */
  ghost predicate GoesRound(v: Supervisor, e: Session, now: real)
  {
    var s1 := Step(v, Change(Raise(e.request, now)));
    var s2 := Step(s1, Change(Raise(e.ok, now)));
    var s3 := Step(s2, Change(Raise(e.closeRequest, now)));
    var s4 := Step(s3, Change(Raise(e.closed, now)));
    (s1.state, s2.state, s3.state, s4.state) == (CONNECTING, ACTIVE, DISCONNECTING, STANDBY)
  }

  /** A whole session goes round exactly when none of its alerts repeats an active one. */
  lemma SessionRoundExactly(v: Supervisor, e: Session, now: real)
    requires v.state == STANDBY && e.Valid()
    ensures GoesRound(v, e, now) <==> forall a | a in e.Alerts() :: !Holds(v.server, a)
  {
    hide Step, Holds;
    assert e.request in e.Alerts() && e.ok in e.Alerts() && e.closeRequest in e.Alerts() && e.closed in e.Alerts();
    var s1 := Step(v, Change(Raise(e.request, now)));
    var s2 := Step(s1, Change(Raise(e.ok, now)));
    var s3 := Step(s2, Change(Raise(e.closeRequest, now)));
    RaiseDrives(v, e.request, now);
    RaiseDrives(s1, e.ok, now);
    RaiseDrives(s2, e.closeRequest, now);
    RaiseDrives(s3, e.closed, now);
    RaiseLeavesOthers(v, e.request, now, e.ok);
    RaiseLeavesOthers(v, e.request, now, e.closeRequest);
    RaiseLeavesOthers(v, e.request, now, e.closed);
    RaiseLeavesOthers(s1, e.ok, now, e.closeRequest);
    RaiseLeavesOthers(s1, e.ok, now, e.closed);
    RaiseLeavesOthers(s2, e.closeRequest, now, e.closed);
  }

  /** From boot: the startup routine and the session, on a system with none of these alerts. */
  lemma SessionLifecycle(v: Supervisor, e: Session, now: real)
    requires v.state == BOOTING && e.Valid()
    ensures var up := Step(v, SpinupDone(true));
            up.state == STANDBY && (GoesRound(up, e, now) <==> forall a | a in e.Alerts() :: !Holds(v.server, a))
  {
    SessionRoundExactly(Step(v, SpinupDone(true)), e, now);
  }

  /** The server's part of a session. */
  function Raises(e: Session, now: real): seq<Op>
  {
    [Raise(e.request, now), Raise(e.ok, now), Raise(e.closeRequest, now), Raise(e.closed, now)]
  }

  /** After any history: a session goes round exactly when no raise identical to one of its own
      still stands. */
  lemma SessionAfterExactly(v: Supervisor, h: seq<Op>, e: Session, now: real)
    requires v.state == STANDBY && e.Valid() && IsHistory(h) && v.server == Alerts.After(h)
    ensures GoesRound(v, e, now) <==> forall a | a in e.Alerts() :: !StandsAs(h, a)
  {
    SessionRoundExactly(v, e, now);
    forall a | a in e.Alerts() ensures Holds(v.server, a) <==> StandsAs(h, a) {
      HoldsExactly(h, a);
    }
  }

  ghost predicate EndedIn(a: Alert, at: real, between: seq<Op>)
  {
    exists j :: 0 <= j < |between| && Ends(Raise(a, at), between[j])
  }

  /** No operation raises one of the session's codes. */
  ghost predicate Apart(e: Session, between: seq<Op>)
  {
    forall j, a | 0 <= j < |between| && a in e.Alerts() :: between[j].Raise? ==> between[j].alert.code != a.code
  }

  /** After a session, and operations in between that raise none of its codes: the same session,
      alert by alert, goes round again exactly when each of its raises was ended in between, by a
      clear of its code or a sweep at least its TTL later. */
  lemma SessionRepeatsExactly(v: Supervisor, g: seq<Op>, e: Session, at: real, between: seq<Op>, now: real)
    requires v.state == STANDBY && e.Valid() && Apart(e, between)
    requires IsHistory(g + Raises(e, at) + between) && v.server == Alerts.After(g + Raises(e, at) + between)
    ensures GoesRound(v, e, now) <==> forall a | a in e.Alerts() :: EndedIn(a, at, between)
  {
    hide GoesRound, IsHistory, StandsAs, EndedIn;
    SessionAfterExactly(v, g + Raises(e, at) + between, e, now);
    forall k | 0 <= k < |e.Alerts()|
      ensures StandsAs(g + Raises(e, at) + between, e.Alerts()[k]) <==> !EndedIn(e.Alerts()[k], at, between)
    {
      StandsAfterSession(g, e, at, between, k);
    }
  }

  /** Of the last raise of its code: an identical raise stands exactly when nothing after it ended
      it. */
  lemma LastRaiseStands(h: seq<Op>, n: nat)
    requires n < |h| && h[n].Raise?
    requires forall i | n < i < |h| && h[i].Raise? :: h[i].alert.code != h[n].alert.code
    ensures StandsAs(h, h[n].alert) <==> forall j | n < j < |h| :: !Ends(h[n], h[j])
  {
    forall i | 0 <= i < n && h[i].Raise? && h[i].alert == h[n].alert ensures !Standing(h, i) {
      assert Ends(h[i], h[n]);
    }
    assert StandsAs(h, h[n].alert) <==> Standing(h, n);
  }

  lemma StandsAfterSession(g: seq<Op>, e: Session, at: real, between: seq<Op>, k: nat)
    requires e.Valid() && k < 4 && Apart(e, between)
    ensures StandsAs(g + Raises(e, at) + between, e.Alerts()[k]) <==> !EndedIn(e.Alerts()[k], at, between)
  {
    hide StandsAs, Standing;
    var h, a, n, m := g + Raises(e, at) + between, e.Alerts()[k], |g| + k, |g| + 4;
    assert a in e.Alerts() && h[n] == Raise(a, at);
    forall i | n < i < m ensures h[i].Raise? && h[i].alert.code != a.code {
      assert h[i] == Raises(e, at)[i - |g|];
    }
    assert forall i | m <= i < |h| :: h[i] == between[i - m];
    LastRaiseStands(h, n);
    assert forall j | 0 <= j < |between| :: between[j] == h[m + j];
  }

  /** Two attempts that fail for the same reason, before the first failure's alert has gone: the
      second failure is suppressed, and the system stays in CONNECTING. */
  lemma RepeatedFailureStays(v: Supervisor, first: Alert, second: Alert, failure: Alert, now: real)
    requires v.state == STANDBY && first.level != FATAL && second.level != FATAL && failure.level != FATAL
    requires first.code == second.code == INF_SESSION_CREATION_REQUEST && first != second
    requires failure.code == ERR_SESSION_CREATION_FAILED && !Holds(v.server, first) && !Holds(v.server, failure)
    ensures var s1 := Step(v, Change(Raise(first, now)));
            var s2 := Step(s1, Change(Raise(failure, now)));
            var s3 := Step(s2, Change(Raise(second, now)));
            var s4 := Step(s3, Change(Raise(failure, now)));
            (s1.state, s2.state, s3.state, s4.state) == (CONNECTING, STANDBY, CONNECTING, CONNECTING)
  {
    var s1 := Step(v, Change(Raise(first, now)));
    var s2 := Step(s1, Change(Raise(failure, now)));
    var s3 := Step(s2, Change(Raise(second, now)));
    RaiseDrives(v, first, now);
    RaiseDrives(s1, failure, now);
    RaiseDrives(s2, second, now);
    RaiseDrives(s3, failure, now);
  }

  // ---------- Startup, shutdown and the fault on record ----------

  /** The startup routine at its state change, from any state: success takes the system from BOOTING,
      CONNECTING or DISCONNECTING to STANDBY, failure from any state that is not down to FAULT; a
      change the table does not allow raises and leaves the state. */
  lemma SpinupDrives(v: Supervisor, ok: bool)
    ensures var r := Step(v, SpinupDone(ok));
            && r.server == v.server && r.faultRef == v.faultRef
            && r.state == if ok && v.state in {BOOTING, CONNECTING, DISCONNECTING} then STANDBY
                          else if !ok && !Down(v.state) then FAULT
                          else v.state
  {
  }

  /** Shutdown ends in SHUTDOWN from every state. */
  lemma ShutdownDrives(v: Supervisor)
    ensures Step(v, Shutdown) == v.(state := SHUTDOWN)
  {
  }

  /** What the server publishes along a run. */
  function PublishedBy(s: Server, run: seq<Action>): seq<Change>
    decreases |run|
  {
    if run == [] then []
    else if run[0].Change? then Apply(s, run[0].op).1 + PublishedBy(Apply(s, run[0].op).0, run[1..])
    else PublishedBy(s, run[1..])
  }

  predicate IsFatal(c: Change) { c.Raised? && c.alert.level == FATAL }

  /** The last fatal alert raised among these changes. */
  function LastFatal(cs: seq<Change>): Option<Alert>
  {
    if cs == [] then None
    else if IsFatal(cs[|cs| - 1]) then Some(cs[|cs| - 1].alert)
    else LastFatal(cs[..|cs| - 1])
  }

  lemma {:induction false} LastFatalConcat(a: seq<Change>, b: seq<Change>)
    ensures LastFatal(a + b) == if LastFatal(b).Some? then LastFatal(b) else LastFatal(a)
  {
    if b == [] {
      assert a + b == a;
    } else {
      LastFatalConcat(a, b[..|b| - 1]);
      assert (a + b)[..|a + b| - 1] == a + b[..|b| - 1];
    }
  }

  lemma {:induction false} OnChangesRecords(v: Supervisor, cs: seq<Change>)
    ensures OnChanges(v, cs).faultRef == if LastFatal(cs).Some? then LastFatal(cs) else v.faultRef
    ensures OnChanges(v, cs).server == v.server
    decreases |cs|
  {
    if cs != [] {
      OnChangesRecords(OnChange(v, cs[0]), cs[1..]);
      assert cs == [cs[0]] + cs[1..] && [cs[0]][..0] == [];
      LastFatalConcat([cs[0]], cs[1..]);
    }
  }

  /** In every run from boot the fault on record is the last fatal alert the server has published,
      whatever the state of the system. */
  lemma {:induction false} FaultOnRecord(v: Supervisor, run: seq<Action>)
    ensures var published := LastFatal(PublishedBy(v.server, run));
            After(v, run).faultRef == if published.Some? then published else v.faultRef
    decreases |run|
  {
    if run != [] {
      FaultOnRecord(Step(v, run[0]), run[1..]);
      if run[0].Change? {
        var (s, out) := Apply(v.server, run[0].op);
        OnChangesRecords(v, out);
        LastFatalConcat(out, PublishedBy(s, run[1..]));
      }
    }
  }

  /** Nothing but the startup routine, a shutdown or a fatal alert leaves BOOTING: session alerts that
      come before are recorded by the server and move nothing. */
  lemma {:induction false} BootsUntilTold(v: Supervisor, run: seq<Action>)
    requires v.state == BOOTING && forall i | 0 <= i < |run| :: run[i].Change?
    ensures After(v, run).state == if LastFatal(PublishedBy(v.server, run)).Some? then FAULT else BOOTING
    decreases |run|
  {
    if run != [] {
      var (s, out) := Apply(v.server, run[0].op);
      var k := Step(v, run[0]);
      assert run == [run[0]] + run[1..];
      LastFatalConcat(out, PublishedBy(s, run[1..]));
      OnChangesFromBoot(v, out);
      OnChangesRecords(v, out);
      if k.state == BOOTING {
        BootsUntilTold(k, run[1..]);
      } else {
        FaultStays(k, run[1..]);
      }
    }
  }

  lemma {:induction false} OnChangesFromBoot(v: Supervisor, cs: seq<Change>)
    requires v.state == BOOTING || v.state == FAULT
    ensures OnChanges(v, cs).state == if v.state == FAULT || LastFatal(cs).Some? then FAULT else BOOTING
    decreases |cs|
  {
    if cs != [] {
      OnChangesFromBoot(OnChange(v, cs[0]), cs[1..]);
      assert cs == [cs[0]] + cs[1..] && [cs[0]][..0] == [];
      LastFatalConcat([cs[0]], cs[1..]);
    }
  }

  lemma {:induction false} FaultStays(v: Supervisor, run: seq<Action>)
    requires v.state == FAULT && forall i | 0 <= i < |run| :: run[i].Change?
    ensures After(v, run).state == FAULT
    decreases |run|
  {
    if run != [] {
      OnChangesFromBoot(v, Apply(v.server, run[0].op).1);
      FaultStays(Step(v, run[0]), run[1..]);
    }
  }

  // ---------- The machine object ----------

  /** The generic machine: transitions may be added until it is finalized. */
  class FSM {
    var state: State
    var transitions: map<State, set<State>>
    var finalized: bool

    constructor (initial: State)
      ensures state == initial && transitions == map[] && !finalized
      ensures forall s :: AllowedFrom(s) == {}
    {
      state, transitions, finalized := initial, map[], false;
    }

    function AllowedFrom(s: State): set<State>
      reads this
    {
      if s in transitions then transitions[s] else {}
    }

    /** False, and no change, once finalized. */
    method AddTransitions(source: State, destinations: set<State>) returns (ok: bool)
      modifies this`transitions
      ensures ok == !finalized
      ensures transitions == if ok then old(transitions)[source := old(AllowedFrom(source)) + destinations]
                             else old(transitions)
      ensures ok ==> AllowedFrom(source) == old(AllowedFrom(source)) + destinations
      ensures forall s | s != source :: AllowedFrom(s) == old(AllowedFrom(s))
    {
      if finalized { return false; }
      transitions := transitions[source := AllowedFrom(source) + destinations];
      return true;
    }

    method TryChangeState(to: State) returns (r: Option<Result>)
      modifies this`state
      ensures r.Some? <==> to in AllowedFrom(old(state))
      ensures r.Some? ==> r.value == Result(old(state), to, true)
      ensures state == if r.Some? then to else old(state)
    {
      if to !in AllowedFrom(state) { return None; }
      r := Some(Result(state, to, true));
      state := to;
    }

    method Force(to: State) returns (r: Result)
      modifies this`state
      ensures state == to && r == Result(old(state), to, to in AllowedFrom(old(state)))
    {
      var c := TryChangeState(to);
      if c.Some? { return c.value; }
      r := Result(state, to, false);
      state := to;
    }
  }

  /** The system machine: its table is the one above, and it takes the steps above. */
  method NewSystemFsm() returns (m: FSM)
    ensures fresh(m) && m.state == BOOTING && IsSystem(m)
  {
    hide FSM.AllowedFrom;
    m := new FSM(BOOTING);
    var _ := m.AddTransitions(BOOTING, {STANDBY, FAULT});
    assert m.AllowedFrom(BOOTING) == {STANDBY, FAULT};
    var _ := m.AddTransitions(STANDBY, {CONNECTING, FAULT});
    assert m.AllowedFrom(STANDBY) == {CONNECTING, FAULT};
    var _ := m.AddTransitions(CONNECTING, {STANDBY, ACTIVE, FAULT});
    assert m.AllowedFrom(CONNECTING) == {STANDBY, ACTIVE, FAULT};
    var _ := m.AddTransitions(ACTIVE, {DISCONNECTING, FAULT});
    assert m.AllowedFrom(ACTIVE) == {DISCONNECTING, FAULT};
    var _ := m.AddTransitions(DISCONNECTING, {STANDBY, FAULT});
    assert m.AllowedFrom(DISCONNECTING) == {STANDBY, FAULT};
    var _ := m.AddTransitions(FAULT, {SHUTDOWN});
    assert m.AllowedFrom(FAULT) == {SHUTDOWN} && m.AllowedFrom(SHUTDOWN) == {};
  }

  ghost predicate IsSystem(m: FSM)
    reads m
  {
    forall s :: m.AllowedFrom(s) == Allowed(s)
  }

  method Process(m: FSM, e: Event) returns (r: Option<Result>)
    requires IsSystem(m)
    modifies m`state
    ensures IsSystem(m) && r == ProcessEvent(old(m.state), e) && r.Some? && m.state == r.value.next
  {
    ProcessEventTotal(m.state, e);
    var s := m.state;
    r := Some(Result(s, s, true));
    if e == FATAL_FAULT {
      if s != FAULT { var f := m.Force(FAULT); r := Some(f); }
    } else if s == STANDBY && e == SESSION_CREATION_REQUESTED {
      r := m.TryChangeState(CONNECTING);
    } else if s == CONNECTING && e == SESSION_CREATED {
      r := m.TryChangeState(ACTIVE);
    } else if s == CONNECTING && e == SESSION_CREATION_FAILED {
      r := m.TryChangeState(STANDBY);
    } else if s == ACTIVE && e == DISCONNECT_REQUESTED {
      r := m.TryChangeState(DISCONNECTING);
    } else if s == ACTIVE && e == DISCONNECTED {
      var f := m.Force(STANDBY);
      r := Some(f);
    } else if s == DISCONNECTING && e == DISCONNECTED {
      r := m.TryChangeState(STANDBY);
    }
  }
}

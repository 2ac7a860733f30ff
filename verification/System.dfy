/**
 The service as a concurrent system: any number of calls take the registry and
 per-name locks one step at a time, the environment picks the interleaving and
 every outcome, and the process may crash between any two steps.
 */
module System {
  import opened Common
  import opened Names
  import opened Stores
  import opened Calls
  import opened Lifecycle

  /** A map from names to mutexes and the mutex that guards the map. */
  datatype Registry = Registry(table: map<string, nat>, guard: Option<nat>)

  /**
   Where a call is. `held` is the create mutex of a Create that has it; `at` is
   the call's place in the recorded order of lock acquisition.
   */
  datatype Phase =
    | WantCreateGuard
    | InCreateTable
    | LeaveCreateGuard(mutex: nat)
    | WantCreate(mutex: nat)
    | WantServiceGuard(held: Option<nat>)
    | InServiceTable(held: Option<nat>)
    | LeaveServiceGuard(held: Option<nat>, mutex: nat)
    | WantService(held: Option<nat>, mutex: nat)
    | Critical(held: Option<nat>, mutex: nat, at: nat, thread: Thread)
    | ReleaseCreate(mutex: nat, at: nat, result: CallResult)
    | Exited(at: nat, result: CallResult)

  datatype Proc = Proc(call: Call, phase: Phase)

  /** One call in the order of service-lock acquisition, with the outcomes of its statements so far. */
  datatype Entry = Entry(call: Call, outcomes: seq<Outcome>)

  /** `hist` and `monitors` record the past; no step reads them. */
  datatype Sys = Sys(
    stores: Stores,
    audit: seq<Record>,
    create: Registry,
    service: Registry,
    owner: map<nat, nat>,
    nextMutex: nat,
    procs: map<nat, Proc>,
    nextProc: nat,
    allowDrop: bool,
    hist: seq<Entry>,
    monitors: map<string, Monitor>)

  datatype Event = Spawn(call: Call) | Advance(proc: nat, outcome: Outcome) | Crash

  const EMPTY_REGISTRY := Registry(map[], None)

  function Initial(stores: Stores, audit: seq<Record>, allowDrop: bool): Sys {
    Sys(stores, audit, EMPTY_REGISTRY, EMPTY_REGISTRY, map[], 0, map[], 0, allowDrop, [], map[])
  }

  function MonitorOf(s: Sys, n: string): Monitor {
    if n in s.monitors then s.monitors[n] else FRESH
  }

  /** Whether the process's next step is not blocked on a lock. */
  predicate CanStep(s: Sys, p: nat)
    requires p in s.procs
  {
    match s.procs[p].phase
    case WantCreateGuard => s.create.guard.None?
    case WantCreate(m) => m !in s.owner
    case WantServiceGuard(_) => s.service.guard.None?
    case WantService(_, m) => m !in s.owner
    case Exited(_, _) => false
    case _ => true
  }

  predicate Enabled(s: Sys, e: Event) {
    match e
    case Spawn(call) => ValidName(call.name) && call.allowDrop == s.allowDrop
    case Advance(p, _) => p in s.procs && CanStep(s, p)
    case Crash => true
  }

  function MoveTo(s: Sys, p: nat, phase: Phase): Sys
    requires p in s.procs
  {
    s.(procs := s.procs[p := s.procs[p].(phase := phase)])
  }

  /** Looks the name up in the table and binds it to a new mutex if it has none. */
  function Bind(table: map<string, nat>, name: string, next: nat): map<string, nat> {
    if name in table then table else table[name := next]
  }

  function AfterBind(table: map<string, nat>, name: string, next: nat): nat {
    if name in table then next else next + 1
  }

  function Apply(s: Sys, e: Event): Sys
    requires Enabled(s, e)
  {
    match e
    case Spawn(call) =>
      var phase := if call.op.CreateOp? then WantCreateGuard else WantServiceGuard(None);
      s.(procs := s.procs[s.nextProc := Proc(call, phase)], nextProc := s.nextProc + 1)
    case Advance(p, o) => ProcStep(s, p, o)
    case Crash =>
      s.(create := EMPTY_REGISTRY, service := EMPTY_REGISTRY, owner := map[],
         procs := map p | p in s.procs && s.procs[p].phase.Exited? :: s.procs[p],
         monitors := map n | n in s.monitors :: Crashed(s.monitors[n]))
  }

  function ProcStep(s: Sys, p: nat, o: Outcome): Sys
    requires p in s.procs && CanStep(s, p)
  {
    match s.procs[p].phase
    case WantCreateGuard => MoveTo(s, p, InCreateTable).(create := s.create.(guard := Some(p)))
    case InCreateTable => BindCreateMutex(s, p)
    case LeaveCreateGuard(m) => MoveTo(s, p, WantCreate(m)).(create := s.create.(guard := None))
    case WantCreate(m) => MoveTo(s, p, WantServiceGuard(Some(m))).(owner := s.owner[m := p])
    case WantServiceGuard(h) => MoveTo(s, p, InServiceTable(h)).(service := s.service.(guard := Some(p)))
    case InServiceTable(h) => BindServiceMutex(s, p, h)
    case LeaveServiceGuard(h, m) => MoveTo(s, p, WantService(h, m)).(service := s.service.(guard := None))
    case WantService(h, m) =>
      MoveTo(s, p, Critical(h, m, |s.hist|, Start(s.procs[p].call))).(
        owner := s.owner[m := p], hist := s.hist + [Entry(s.procs[p].call, [])])
    case Critical(h, m, at, t) => if Active(t) then Statement(s, p, o) else ReleaseService(s, p)
    case ReleaseCreate(m, at, r) => MoveTo(s, p, Exited(at, r)).(owner := s.owner - {m})
  }

  function BindCreateMutex(s: Sys, p: nat): Sys
    requires p in s.procs
  {
    var name := s.procs[p].call.name;
    var table := Bind(s.create.table, name, s.nextMutex);
    MoveTo(s, p, LeaveCreateGuard(table[name])).(
      create := s.create.(table := table), nextMutex := AfterBind(s.create.table, name, s.nextMutex))
  }

  function BindServiceMutex(s: Sys, p: nat, held: Option<nat>): Sys
    requires p in s.procs
  {
    var name := s.procs[p].call.name;
    var table := Bind(s.service.table, name, s.nextMutex);
    MoveTo(s, p, LeaveServiceGuard(held, table[name])).(
      service := s.service.(table := table), nextMutex := AfterBind(s.service.table, name, s.nextMutex))
  }

  /** The service lock is released first; a Create releases its create lock after it. */
  function ReleaseService(s: Sys, p: nat): Sys
    requires p in s.procs && s.procs[p].phase.Critical? && !Active(s.procs[p].phase.thread)
  {
    var ph := s.procs[p].phase;
    var r := ph.thread.pc.result;
    MoveTo(s, p, if ph.held.Some? then ReleaseCreate(ph.held.value, ph.at, r) else Exited(ph.at, r)).(owner := s.owner - {ph.mutex})
  }

  function Recorded(hist: seq<Entry>, at: nat, o: Outcome): seq<Entry> {
    if at < |hist| then hist[at := hist[at].(outcomes := hist[at].outcomes + [o])] else hist
  }

  /** One statement of a call inside its critical section. */
  function Statement(s: Sys, p: nat, o: Outcome): Sys
    requires p in s.procs && s.procs[p].phase.Critical? && Active(s.procs[p].phase.thread)
  {
    var phase := s.procs[p].phase;
    var n, t := s.procs[p].call.name, phase.thread;
    var a := ActionOf(t);
    var e := Perform(s.stores, a, o);
    MoveTo(s, p, phase.(thread := Resume(t, e.reply))).(
      stores := e.stores,
      audit := s.audit + Emitted(a, o),
      hist := Recorded(s.hist, phase.at, o),
      monitors := s.monitors[n := Observe(MonitorOf(s, n), SliceOf(s.stores, s.audit, KeysOf(n)), t, o)])
  }

  /** The state after the events, or `None` if one of them was not enabled. */
  function Play(s: Sys, events: seq<Event>): Option<Sys> {
    if events == [] then Some(s)
    else
      match Play(s, events[..|events| - 1])
      case None => None
      case Some(t) =>
        if Enabled(t, events[|events| - 1]) then Some(Apply(t, events[|events| - 1])) else None
  }

  lemma PlaySnoc(s: Sys, events: seq<Event>)
    requires events != [] && Play(s, events).Some?
    ensures Play(s, events[..|events| - 1]).Some?
    ensures var t := Play(s, events[..|events| - 1]).value;
      Enabled(t, events[|events| - 1]) && Play(s, events) == Some(Apply(t, events[|events| - 1]))
  {
  }

  /** Some run of the system leads from the initial state over these stores to `s`. */
  ghost predicate Reachable(stores: Stores, audit: seq<Record>, allowDrop: bool, s: Sys) {
    exists events :: Play(Initial(stores, audit, allowDrop), events) == Some(s)
  }
}

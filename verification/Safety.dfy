/**
 What every run keeps across rows, databases, accounts, secret files and audit
 log, under any interleaving, any failures and a crash at any point, for names
 whose identifiers are pairwise distinct.
 */
module Safety {
  import opened Common
  import opened Names
  import opened Stores
  import opened Calls
  import opened Lifecycle
  import opened System
  import opened Locks
  import opened Serial

  function SliceIn(s: Sys, n: string): Slice {
    SliceOf(s.stores, s.audit, KeysOf(n))
  }

  /** Nothing in the stores or the log belongs to a name outside the set. */
  ghost predicate Within(stores: Stores, audit: seq<Record>, names: set<string>) {
    && stores.rows.Keys <= names && stores.files.Keys <= names && ReplayAudit(audit) <= names
    && (forall d :: d in stores.dbs ==> exists n :: n in names && DatabaseName(n) == d)
    && (forall x :: x in stores.accounts ==> exists n :: n in names && UserName(n) == x.0)
  }

  /** A state a service may start from: every slice sound with nothing held against it. */
  ghost predicate Healthy(stores: Stores, audit: seq<Record>, names: set<string>, allow: bool) {
    && Separate(names) && Within(stores, audit, names)
    && forall n :: n in names ==> Sound(SliceOf(stores, audit, KeysOf(n)), FRESH, KeysOf(n), allow)
  }

  lemma EmptyIsHealthy(names: set<string>, allow: bool)
    requires Separate(names)
    ensures Healthy(Stores(map[], {}, map[], map[]), [], names, allow)
  {
  }

  predicate CallIsBusy(s: Sys, q: Proc) {
    && q.call.allowDrop == s.allowDrop
    && (q.phase.Critical? ==>
        q.phase.thread.call == q.call
        && Busy(SliceIn(s, q.call.name), MonitorOf(s, q.call.name), q.phase.thread, KeysOf(q.call.name), s.allowDrop))
  }

  ghost predicate Occupied(s: Sys, n: string) {
    exists p :: InCriticalSection(s, p, n)
  }

  /** The slice is sound, and an open gap is being attended to. */
  ghost predicate NameSafe(s: Sys, n: string) {
    Sound(SliceIn(s, n), MonitorOf(s, n), KeysOf(n), s.allowDrop) && (MonitorOf(s, n).gap ==> Occupied(s, n))
  }

  predicate ProcSafe(s: Sys, names: set<string>, q: Proc) {
    q.call.name in names && CallIsBusy(s, q)
  }

  /** The invariant of every run. */
  ghost predicate Safe(s: Sys, names: set<string>) {
    && Within(s.stores, s.audit, names)
    && (forall n :: n in names ==> NameSafe(s, n))
    && (forall p :: p in s.procs ==> ProcSafe(s, names, s.procs[p]))
  }

  // ---------------------------------------------------------------- preservation

  lemma StatementKeepsWithin(s: Stores, audit: seq<Record>, names: set<string>, n: string, a: Action, o: Outcome)
    requires Within(s, audit, names) && n in names && Owns(KeysOf(n), a)
    ensures Within(Perform(s, a, o).stores, audit + Emitted(a, o), names)
  {
    ReplayAppend(audit, a, o);
    var t := Perform(s, a, o).stores;
    forall d | d in t.dbs ensures exists m :: m in names && DatabaseName(m) == d {
      if d !in s.dbs {
        assert DatabaseName(n) == d;
      }
    }
    forall x | x in t.accounts ensures exists m :: m in names && UserName(m) == x.0 {
      if x !in s.accounts {
        assert UserName(n) == x.0;
      }
    }
  }

  /** The slice, facts and position of the project a statement works on. */
  lemma OwnSliceMoves(s: Sys, p: nat, o: Outcome)
    requires p in s.procs && s.procs[p].phase.Critical? && Active(s.procs[p].phase.thread)
    requires Owns(KeysOf(s.procs[p].call.name), ActionOf(s.procs[p].phase.thread))
    ensures var u, n, t := Statement(s, p, o), s.procs[p].call.name, s.procs[p].phase.thread;
      && SliceProgress(SliceIn(u, n), u.procs[p].phase.thread) == SliceStep(SliceIn(s, n), t, o)
      && MonitorOf(u, n) == Observe(MonitorOf(s, n), SliceIn(s, n), t, o)
  {
    var n, t := s.procs[p].call.name, s.procs[p].phase.thread;
    OwnerSeesEffect(s.stores, s.audit, KeysOf(n), ActionOf(t), o);
  }

  lemma OtherSliceStays(s: Sys, p: nat, o: Outcome, m: string)
    requires p in s.procs && s.procs[p].phase.Critical? && Active(s.procs[p].phase.thread)
    requires Owns(KeysOf(s.procs[p].call.name), ActionOf(s.procs[p].phase.thread))
    requires m != s.procs[p].call.name && Apart(KeysOf(m), KeysOf(s.procs[p].call.name))
    ensures var u := Statement(s, p, o); SliceIn(u, m) == SliceIn(s, m) && MonitorOf(u, m) == MonitorOf(s, m)
  {
    OthersSeeNothing(s.stores, s.audit, KeysOf(m), KeysOf(s.procs[p].call.name), ActionOf(s.procs[p].phase.thread), o);
  }

  lemma StatementKeepsOwnSlice(s: Sys, names: set<string>, p: nat, o: Outcome)
    requires Safe(s, names) && p in s.procs && s.procs[p].phase.Critical? && Active(s.procs[p].phase.thread)
    ensures Owns(KeysOf(s.procs[p].call.name), ActionOf(s.procs[p].phase.thread))
    ensures var u, n := Statement(s, p, o), s.procs[p].call.name;
      Sound(SliceIn(u, n), MonitorOf(u, n), KeysOf(n), u.allowDrop) && CallIsBusy(u, u.procs[p])
  {
    var n, t := s.procs[p].call.name, s.procs[p].phase.thread;
    assert ProcSafe(s, names, s.procs[p]) && NameSafe(s, n);
    KeyedOwns(t, KeysOf(n));
    StepKeeps(SliceIn(s, n), MonitorOf(s, n), t, KeysOf(n), s.allowDrop, o);
    OwnSliceMoves(s, p, o);
  }

  /** A move of one process inside its section, or of one outside any, leaves every section occupied. */
  lemma OccupiedStays(s: Sys, u: Sys, p: nat, n: string)
    requires Occupied(s, n) && p in s.procs && p in u.procs && u.procs == s.procs[p := u.procs[p]]
    requires u.procs[p].call == s.procs[p].call && (InCriticalSection(s, p, n) ==> u.procs[p].phase.Critical?)
    ensures Occupied(u, n)
  {
    var q :| InCriticalSection(s, q, n);
    assert InCriticalSection(u, q, n);
  }

  lemma StatementKeepsNameSafe(s: Sys, names: set<string>, p: nat, o: Outcome, m: string)
    requires Separate(names) && Safe(s, names) && m in names
    requires p in s.procs && s.procs[p].phase.Critical? && Active(s.procs[p].phase.thread)
    ensures NameSafe(Statement(s, p, o), m)
  {
    assert NameSafe(s, m);
    var u, n := Statement(s, p, o), s.procs[p].call.name;
    StatementKeepsOwnSlice(s, names, p, o);
    if m == n {
      assert InCriticalSection(u, p, n);
    } else {
      OtherSliceStays(s, p, o, m);
      if MonitorOf(s, m).gap {
        OccupiedStays(s, u, p, m);
      }
    }
  }

  lemma StatementStaysWithin(s: Sys, names: set<string>, p: nat, o: Outcome)
    requires Safe(s, names) && p in s.procs && s.procs[p].phase.Critical? && Active(s.procs[p].phase.thread)
    ensures var u := Statement(s, p, o); Within(u.stores, u.audit, names)
  {
    assert ProcSafe(s, names, s.procs[p]);
    var n, t := s.procs[p].call.name, s.procs[p].phase.thread;
    KeyedOwns(t, KeysOf(n));
    StatementKeepsWithin(s.stores, s.audit, names, n, ActionOf(t), o);
  }

  lemma StatementKeepsSafe(s: Sys, names: set<string>, p: nat, o: Outcome)
    requires Separate(names) && WellLocked(s) && Safe(s, names)
    requires p in s.procs && s.procs[p].phase.Critical? && Active(s.procs[p].phase.thread)
    ensures Safe(Statement(s, p, o), names)
  {
    var u := Statement(s, p, o);
    StatementStaysWithin(s, names, p, o);
    forall m | m in names ensures NameSafe(u, m) {
      StatementKeepsNameSafe(s, names, p, o, m);
    }
    forall q | q in s.procs ensures ProcSafe(u, names, u.procs[q]) {
      StatementKeepsProcSafe(s, names, p, o, q);
    }
  }

  lemma StatementKeepsProcSafe(s: Sys, names: set<string>, p: nat, o: Outcome, q: nat)
    requires Separate(names) && WellLocked(s) && Safe(s, names)
    requires p in s.procs && s.procs[p].phase.Critical? && Active(s.procs[p].phase.thread) && q in s.procs
    ensures var u := Statement(s, p, o); ProcSafe(u, names, u.procs[q])
  {
    if q == p {
      assert ProcSafe(s, names, s.procs[p]);
      StatementKeepsOwnSlice(s, names, p, o);
    } else {
      OtherCallStaysBusy(s, names, p, o, q);
    }
  }

  lemma OtherCallStaysBusy(s: Sys, names: set<string>, p: nat, o: Outcome, q: nat)
    requires Separate(names) && WellLocked(s) && Safe(s, names)
    requires p in s.procs && s.procs[p].phase.Critical? && Active(s.procs[p].phase.thread)
    requires q in s.procs && q != p
    ensures ProcSafe(Statement(s, p, o), names, s.procs[q])
  {
    assert ProcSafe(s, names, s.procs[p]) && ProcSafe(s, names, s.procs[q]);
    KeyedOwns(s.procs[p].phase.thread, KeysOf(s.procs[p].call.name));
    if s.procs[q].phase.Critical? {
      var m := s.procs[q].call.name;
      if m == s.procs[p].call.name {
        LockedExcludes(s, p, q, m);
      }
      OtherSliceStays(s, p, o, m);
    }
  }

  /** Entering the critical section: at the start nothing is assumed of the slice. */
  lemma StartIsBusy(s: Slice, m: Monitor, call: Call, allow: bool)
    requires RowKeyed(s.row, KeysOf(call.name)) && call.allowDrop == allow && !m.gap
    ensures Busy(s, m, Start(call), KeysOf(call.name), allow)
  {
  }

  /** A step that changes no store, log or fact, and at most one process. */
  lemma QuietStepKeepsSafe(s: Sys, u: Sys, names: set<string>, p: nat)
    requires Safe(s, names) && p in s.procs && p in u.procs && u.procs == s.procs[p := u.procs[p]]
    requires u.stores == s.stores && u.audit == s.audit && u.monitors == s.monitors && u.allowDrop == s.allowDrop
    requires u.procs[p].call == s.procs[p].call && CallIsBusy(u, u.procs[p])
    requires s.procs[p].phase.Critical? ==> !MonitorOf(s, s.procs[p].call.name).gap
    ensures Safe(u, names)
  {
    forall n | n in names ensures NameSafe(u, n) {
      assert NameSafe(s, n);
      if MonitorOf(s, n).gap {
        OccupiedStays(s, u, p, n);
      }
    }
    forall q | q in u.procs ensures ProcSafe(u, names, u.procs[q]) {
      if q != p {
        assert ProcSafe(s, names, s.procs[q]);
      }
    }
  }

  /** The moment before a call enters the critical section of its name. */
  lemma NameAtRest(s: Sys, names: set<string>, p: nat)
    requires WellLocked(s) && Safe(s, names)
    requires p in s.procs && s.procs[p].phase.WantService? && CanStep(s, p)
    ensures var n := s.procs[p].call.name;
      && RowKeyed(SliceIn(s, n).row, KeysOf(n)) && !MonitorOf(s, n).gap && s.procs[p].call.allowDrop == s.allowDrop
  {
    NobodyInside(s, p);
    assert ProcSafe(s, names, s.procs[p]);
    assert NameSafe(s, s.procs[p].call.name) && !Occupied(s, s.procs[p].call.name);
  }

  lemma AcquireKeepsSafe(s: Sys, names: set<string>, p: nat, o: Outcome)
    requires WellLocked(s) && Safe(s, names)
    requires p in s.procs && s.procs[p].phase.WantService? && CanStep(s, p)
    ensures Safe(ProcStep(s, p, o), names)
  {
    var n, u := s.procs[p].call.name, ProcStep(s, p, o);
    NameAtRest(s, names, p);
    AcquireShape(s, p, o);
    StartIsBusy(SliceIn(s, n), MonitorOf(s, n), s.procs[p].call, s.allowDrop);
    QuietStepKeepsSafe(s, u, names, p);
  }

  lemma ReleaseKeepsSafe(s: Sys, names: set<string>, p: nat)
    requires Safe(s, names) && p in s.procs && s.procs[p].phase.Critical? && !Active(s.procs[p].phase.thread)
    ensures Safe(ReleaseService(s, p), names)
  {
    assert ProcSafe(s, names, s.procs[p]);
    QuietStepKeepsSafe(s, ReleaseService(s, p), names, p);
  }

  lemma ProtocolKeepsSafe(s: Sys, names: set<string>, p: nat, o: Outcome)
    requires Safe(s, names)
    requires p in s.procs && CanStep(s, p) && !s.procs[p].phase.Critical? && !s.procs[p].phase.WantService?
    ensures Safe(ProcStep(s, p, o), names)
  {
    assert ProcSafe(s, names, s.procs[p]);
    ProtocolIsQuiet(s, p, o);
    QuietStepKeepsSafe(s, ProcStep(s, p, o), names, p);
  }

  lemma SpawnKeepsSafe(s: Sys, names: set<string>, e: Event)
    requires WellLocked(s) && Safe(s, names) && Enabled(s, e) && e.Spawn? && e.call.name in names
    ensures Safe(Apply(s, e), names)
  {
    NextProcIsNew(s);
    var u := Apply(s, e);
    forall n | n in names ensures NameSafe(u, n) {
      SpawnKeepsNameSafe(s, names, e, n);
    }
    forall q | q in u.procs ensures ProcSafe(u, names, u.procs[q]) {
      SpawnKeepsBusy(s, names, e, q);
    }
  }

  lemma SpawnKeepsNameSafe(s: Sys, names: set<string>, e: Event, n: string)
    requires Safe(s, names) && Enabled(s, e) && e.Spawn? && n in names && s.nextProc !in s.procs
    ensures NameSafe(Apply(s, e), n)
  {
    assert NameSafe(s, n);
    if MonitorOf(s, n).gap {
      var q :| InCriticalSection(s, q, n);
      assert InCriticalSection(Apply(s, e), q, n);
    }
  }

  lemma SpawnKeepsBusy(s: Sys, names: set<string>, e: Event, q: nat)
    requires Safe(s, names) && Enabled(s, e) && e.Spawn? && e.call.name in names
    requires q in Apply(s, e).procs && s.nextProc !in s.procs
    ensures var u := Apply(s, e); ProcSafe(u, names, u.procs[q])
  {
    if q in s.procs {
      assert ProcSafe(s, names, s.procs[q]);
    }
  }

  lemma CrashKeepsSafe(s: Sys, names: set<string>)
    requires Safe(s, names)
    ensures Safe(Apply(s, Crash), names)
  {
    var u := Apply(s, Crash);
    forall n | n in names ensures NameSafe(u, n) {
      assert NameSafe(s, n);
      CrashKeepsSound(SliceIn(s, n), MonitorOf(s, n), KeysOf(n), s.allowDrop);
    }
    forall q | q in u.procs ensures ProcSafe(u, names, u.procs[q]) {
      assert ProcSafe(s, names, s.procs[q]);
    }
  }

  lemma EventKeepsSafe(s: Sys, names: set<string>, e: Event)
    requires Separate(names) && WellLocked(s) && Safe(s, names)
    requires Enabled(s, e) && (e.Spawn? ==> e.call.name in names)
    ensures Safe(Apply(s, e), names)
  {
    match e
    case Spawn(_) => SpawnKeepsSafe(s, names, e);
    case Crash => CrashKeepsSafe(s, names);
    case Advance(p, o) =>
      if s.procs[p].phase.WantService? {
        AcquireKeepsSafe(s, names, p, o);
      } else if !s.procs[p].phase.Critical? {
        ProtocolKeepsSafe(s, names, p, o);
      } else if Active(s.procs[p].phase.thread) {
        StatementKeepsSafe(s, names, p, o);
      } else {
        ReleaseKeepsSafe(s, names, p);
      }
  }

  lemma {:induction false} PlayKeepsSafe(s: Sys, names: set<string>, events: seq<Event>)
    requires Separate(names) && WellLocked(s) && Safe(s, names) && CallsIn(events, names)
    requires Play(s, events).Some?
    ensures WellLocked(Play(s, events).value) && Safe(Play(s, events).value, names)
  {
    if events != [] {
      var init := events[..|events| - 1];
      PlaySnoc(s, events);
      PlayKeepsSafe(s, names, init);
      EventKeepsLocks(Play(s, init).value, events[|events| - 1]);
      EventKeepsSafe(Play(s, init).value, names, events[|events| - 1]);
    }
  }

  /** Some run over the names leads from a healthy start to `s`. */
  ghost predicate RunsTo(names: set<string>, s: Sys) {
    exists stores: Stores, audit: seq<Record>, allow: bool, events: seq<Event> ::
      Healthy(stores, audit, names, allow) && CallsIn(events, names) && Play(Initial(stores, audit, allow), events) == Some(s)
  }

  lemma RunsAreSafe(names: set<string>, s: Sys)
    requires RunsTo(names, s)
    ensures Separate(names) && WellLocked(s) && Safe(s, names)
  {
    var stores: Stores, audit: seq<Record>, allow: bool, events: seq<Event> :|
      Healthy(stores, audit, names, allow) && CallsIn(events, names) && Play(Initial(stores, audit, allow), events) == Some(s);
    PlayKeepsSafe(Initial(stores, audit, allow), names, events);
  }
}

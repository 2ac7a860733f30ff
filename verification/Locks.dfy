/**
 The locking discipline: registries never rebind a name, at most one call is in
 the critical section of a name, and some unfinished call can always step.
 */
module Locks {
  import opened Common
  import opened Stores
  import opened Calls
  import opened System

  predicate HoldsCreateGuard(ph: Phase) {
    ph.InCreateTable? || ph.LeaveCreateGuard?
  }

  predicate HoldsServiceGuard(ph: Phase) {
    ph.InServiceTable? || ph.LeaveServiceGuard?
  }

  /** The create mutex the process has looked up, if any. */
  function CreateMutex(ph: Phase): Option<nat> {
    match ph
    case LeaveCreateGuard(m) => Some(m)
    case WantCreate(m) => Some(m)
    case WantServiceGuard(h) => h
    case InServiceTable(h) => h
    case LeaveServiceGuard(h, _) => h
    case WantService(h, _) => h
    case Critical(h, _, _, _) => h
    case ReleaseCreate(m, _, _) => Some(m)
    case _ => None
  }

  /** The create mutex the process holds, if any. */
  function OwnedCreate(ph: Phase): Option<nat> {
    if ph.LeaveCreateGuard? || ph.WantCreate? then None else CreateMutex(ph)
  }

  /** The service mutex the process has looked up, if any. */
  function ServiceMutex(ph: Phase): Option<nat> {
    match ph
    case LeaveServiceGuard(_, m) => Some(m)
    case WantService(_, m) => Some(m)
    case Critical(_, m, _, _) => Some(m)
    case _ => None
  }

  function OwnedService(ph: Phase): Option<nat> {
    if ph.Critical? then Some(ph.mutex) else None
  }

  predicate BeforeCreateMutex(ph: Phase) {
    ph.WantCreateGuard? || ph.InCreateTable? || ph.LeaveCreateGuard? || ph.WantCreate?
  }

  predicate Holds(ph: Phase, m: nat) {
    OwnedCreate(ph) == Some(m) || OwnedService(ph) == Some(m)
  }

  predicate Bound(table: map<string, nat>, name: string, m: Option<nat>) {
    m.Some? ==> name in table && table[name] == m.value
  }

  predicate OwnedBy(owner: map<nat, nat>, m: Option<nat>, p: nat) {
    m.Some? ==> m.value in owner && owner[m.value] == p
  }

  predicate ProcOk(s: Sys, p: nat, q: Proc) {
    && p < s.nextProc
    && (HoldsCreateGuard(q.phase) ==> s.create.guard == Some(p))
    && (HoldsServiceGuard(q.phase) ==> s.service.guard == Some(p))
    && Bound(s.create.table, q.call.name, CreateMutex(q.phase))
    && Bound(s.service.table, q.call.name, ServiceMutex(q.phase))
    && OwnedBy(s.owner, OwnedCreate(q.phase), p)
    && OwnedBy(s.owner, OwnedService(q.phase), p)
    && (BeforeCreateMutex(q.phase) ==> q.call.op.CreateOp?)
    && (!BeforeCreateMutex(q.phase) && !q.phase.Exited? ==> (q.call.op.CreateOp? <==> CreateMutex(q.phase).Some?))
  }

  predicate TableOk(table: map<string, nat>, next: nat) {
    && (forall n :: n in table ==> table[n] < next)
    && (forall n, m :: n in table && m in table && table[n] == table[m] ==> n == m)
  }

  predicate TablesDisjoint(a: map<string, nat>, b: map<string, nat>) {
    forall n, m :: n in a && m in b ==> a[n] != b[m]
  }

  /** The invariant of the locking protocol. */
  predicate WellLocked(s: Sys) {
    && TableOk(s.create.table, s.nextMutex) && TableOk(s.service.table, s.nextMutex)
    && TablesDisjoint(s.create.table, s.service.table)
    && (forall p :: p in s.procs ==> ProcOk(s, p, s.procs[p]))
    && (s.create.guard.Some? ==>
        s.create.guard.value in s.procs && HoldsCreateGuard(s.procs[s.create.guard.value].phase))
    && (s.service.guard.Some? ==>
        s.service.guard.value in s.procs && HoldsServiceGuard(s.procs[s.service.guard.value].phase))
    && (forall m :: m in s.owner ==> s.owner[m] in s.procs && Holds(s.procs[s.owner[m]].phase, m))
  }

  // ---------------------------------------------------------------- preservation

  predicate Extends(a: map<string, nat>, b: map<string, nat>) {
    forall n :: n in a ==> n in b && b[n] == a[n]
  }

  /** Binding a name keeps the table injective, moves nothing, and takes a mutex of its own. */
  lemma BindKeeps(table: map<string, nat>, other: map<string, nat>, name: string, next: nat)
    requires TableOk(table, next) && TableOk(other, next) && TablesDisjoint(table, other)
    ensures var t, n := Bind(table, name, next), AfterBind(table, name, next);
      && name in t && TableOk(t, n) && TableOk(other, n) && TablesDisjoint(t, other) && Extends(table, t)
  {
  }

  /** The lock state changed, but only in ways that concern the process `p`. */
  predicate ChangedFor(s: Sys, t: Sys, p: nat) {
    && t.nextProc == s.nextProc
    && Extends(s.create.table, t.create.table) && Extends(s.service.table, t.service.table)
    && (s.create.guard.Some? && s.create.guard.value != p ==> t.create.guard == s.create.guard)
    && (s.service.guard.Some? && s.service.guard.value != p ==> t.service.guard == s.service.guard)
    && (forall m :: m in s.owner && s.owner[m] != p ==> m in t.owner && t.owner[m] == s.owner[m])
  }

  lemma OtherProcStaysOk(s: Sys, t: Sys, p: nat, q: nat)
    requires q in s.procs && q != p && ProcOk(s, q, s.procs[q]) && ChangedFor(s, t, p)
    ensures ProcOk(t, q, s.procs[q])
  {
  }

  /** The invariant follows from the tables, the moved process and the owners alone. */
  lemma MoveKeeps(s: Sys, t: Sys, p: nat)
    requires WellLocked(s) && p in s.procs && p in t.procs && ChangedFor(s, t, p)
    requires t.procs == s.procs[p := t.procs[p]]
    requires TableOk(t.create.table, t.nextMutex) && TableOk(t.service.table, t.nextMutex)
    requires TablesDisjoint(t.create.table, t.service.table)
    requires ProcOk(t, p, t.procs[p])
    requires t.create.guard == Some(p) ==> HoldsCreateGuard(t.procs[p].phase)
    requires t.create.guard.Some? ==> t.create.guard == Some(p) || t.create.guard == s.create.guard
    requires t.service.guard == Some(p) ==> HoldsServiceGuard(t.procs[p].phase)
    requires t.service.guard.Some? ==> t.service.guard == Some(p) || t.service.guard == s.service.guard
    requires forall m :: m in t.owner ==>
      (t.owner[m] == p && Holds(t.procs[p].phase, m)) || (t.owner[m] != p && m in s.owner && s.owner[m] == t.owner[m])
    ensures WellLocked(t)
  {
    forall q | q in t.procs ensures ProcOk(t, q, t.procs[q]) {
      if q != p {
        OtherProcStaysOk(s, t, p, q);
      }
    }
  }

  lemma TakeCreateGuardKeeps(s: Sys, p: nat, o: Outcome)
    requires WellLocked(s) && p in s.procs && CanStep(s, p) && s.procs[p].phase.WantCreateGuard?
    ensures WellLocked(ProcStep(s, p, o))
  {
    MoveKeeps(s, ProcStep(s, p, o), p);
  }

  lemma LeaveCreateGuardKeeps(s: Sys, p: nat, o: Outcome)
    requires WellLocked(s) && p in s.procs && CanStep(s, p) && s.procs[p].phase.LeaveCreateGuard?
    ensures WellLocked(ProcStep(s, p, o))
  {
    MoveKeeps(s, ProcStep(s, p, o), p);
  }

  lemma TakeServiceGuardKeeps(s: Sys, p: nat, o: Outcome)
    requires WellLocked(s) && p in s.procs && CanStep(s, p) && s.procs[p].phase.WantServiceGuard?
    ensures WellLocked(ProcStep(s, p, o))
  {
    MoveKeeps(s, ProcStep(s, p, o), p);
  }

  lemma LeaveServiceGuardKeeps(s: Sys, p: nat, o: Outcome)
    requires WellLocked(s) && p in s.procs && CanStep(s, p) && s.procs[p].phase.LeaveServiceGuard?
    ensures WellLocked(ProcStep(s, p, o))
  {
    MoveKeeps(s, ProcStep(s, p, o), p);
  }

  lemma BindCreateKeeps(s: Sys, p: nat)
    requires WellLocked(s) && p in s.procs && s.procs[p].phase.InCreateTable?
    ensures WellLocked(BindCreateMutex(s, p))
  {
    BindKeeps(s.create.table, s.service.table, s.procs[p].call.name, s.nextMutex);
    assert ProcOk(s, p, s.procs[p]);
    TableMoveKeeps(s, BindCreateMutex(s, p), p);
  }

  lemma BoundProcIsOk(s: Sys, p: nat)
    requires p in s.procs && s.procs[p].phase.InServiceTable? && ProcOk(s, p, s.procs[p])
    ensures var t := BindServiceMutex(s, p, s.procs[p].phase.held); ProcOk(t, p, t.procs[p])
  {
  }

  lemma BindServiceKeeps(s: Sys, p: nat)
    requires WellLocked(s) && p in s.procs && s.procs[p].phase.InServiceTable?
    ensures WellLocked(BindServiceMutex(s, p, s.procs[p].phase.held))
  {
    BindKeeps(s.service.table, s.create.table, s.procs[p].call.name, s.nextMutex);
    BoundProcIsOk(s, p);
    TableMoveKeeps(s, BindServiceMutex(s, p, s.procs[p].phase.held), p);
  }

  /** The case of `MoveKeeps` in which neither guards nor owners change. */
  lemma TableMoveKeeps(s: Sys, t: Sys, p: nat)
    requires WellLocked(s) && p in s.procs && p in t.procs && t.procs == s.procs[p := t.procs[p]]
    requires t.owner == s.owner && t.nextProc == s.nextProc
    requires t.create.guard == s.create.guard && t.service.guard == s.service.guard
    requires Extends(s.create.table, t.create.table) && Extends(s.service.table, t.service.table)
    requires TableOk(t.create.table, t.nextMutex) && TableOk(t.service.table, t.nextMutex)
    requires TablesDisjoint(t.create.table, t.service.table)
    requires ProcOk(t, p, t.procs[p])
    requires HoldsCreateGuard(t.procs[p].phase) == HoldsCreateGuard(s.procs[p].phase)
    requires HoldsServiceGuard(t.procs[p].phase) == HoldsServiceGuard(s.procs[p].phase)
    requires OwnedCreate(t.procs[p].phase) == OwnedCreate(s.procs[p].phase)
    requires OwnedService(t.procs[p].phase) == OwnedService(s.procs[p].phase)
    ensures WellLocked(t)
  {
    MoveKeeps(s, t, p);
  }

  lemma AcquireCreateKeeps(s: Sys, p: nat, o: Outcome)
    requires WellLocked(s) && p in s.procs && CanStep(s, p) && s.procs[p].phase.WantCreate?
    ensures WellLocked(ProcStep(s, p, o))
  {
    MoveKeeps(s, ProcStep(s, p, o), p);
  }

  lemma AcquireServiceKeeps(s: Sys, p: nat, o: Outcome)
    requires WellLocked(s) && p in s.procs && CanStep(s, p) && s.procs[p].phase.WantService?
    ensures WellLocked(ProcStep(s, p, o))
  {
    MoveKeeps(s, ProcStep(s, p, o), p);
  }

  lemma ReleaseCreateKeeps(s: Sys, p: nat, o: Outcome)
    requires WellLocked(s) && p in s.procs && CanStep(s, p) && s.procs[p].phase.ReleaseCreate?
    ensures WellLocked(ProcStep(s, p, o))
  {
    MoveKeeps(s, ProcStep(s, p, o), p);
  }

  lemma ReleasedProcIsOk(s: Sys, p: nat)
    requires p in s.procs && ProcOk(s, p, s.procs[p]) && TablesDisjoint(s.create.table, s.service.table)
    requires s.procs[p].phase.Critical? && !Active(s.procs[p].phase.thread)
    ensures var t := ReleaseService(s, p); ProcOk(t, p, t.procs[p])
  {
  }

  lemma ReleaseLeavesTheRest(s: Sys, p: nat)
    requires WellLocked(s) && p in s.procs && s.procs[p].phase.Critical? && !Active(s.procs[p].phase.thread)
    ensures var t := ReleaseService(s, p);
      && ChangedFor(s, t, p) && t.procs == s.procs[p := t.procs[p]] && t.nextMutex == s.nextMutex
      && t.create == s.create && t.service == s.service
      && forall m :: m in t.owner ==>
           (t.owner[m] == p && Holds(t.procs[p].phase, m)) || (t.owner[m] != p && m in s.owner && s.owner[m] == t.owner[m])
  {
    assert ProcOk(s, p, s.procs[p]);
  }

  lemma ReleaseServiceKeeps(s: Sys, p: nat)
    requires WellLocked(s) && p in s.procs && s.procs[p].phase.Critical? && !Active(s.procs[p].phase.thread)
    ensures WellLocked(ReleaseService(s, p))
  {
    assert ProcOk(s, p, s.procs[p]);
    ReleasedProcIsOk(s, p);
    ReleaseLeavesTheRest(s, p);
    MoveKeeps(s, ReleaseService(s, p), p);
  }

  lemma StatementLeavesLocks(s: Sys, p: nat, o: Outcome)
    requires p in s.procs && s.procs[p].phase.Critical? && Active(s.procs[p].phase.thread)
    ensures var t, ph := Statement(s, p, o), s.procs[p].phase;
      && t.create == s.create && t.service == s.service && t.owner == s.owner
      && t.nextMutex == s.nextMutex && t.nextProc == s.nextProc
      && p in t.procs && t.procs == s.procs[p := t.procs[p]] && t.procs[p].call == s.procs[p].call
      && t.procs[p].phase.Critical? && t.procs[p].phase.held == ph.held && t.procs[p].phase.mutex == ph.mutex
  {
  }

  lemma StillOk(s: Sys, t: Sys, p: nat, q: Proc, r: Proc)
    requires ProcOk(s, p, q) && q.phase.Critical? && r.phase.Critical?
    requires r.call == q.call && r.phase.held == q.phase.held && r.phase.mutex == q.phase.mutex
    requires t.create == s.create && t.service == s.service && t.owner == s.owner && t.nextProc == s.nextProc
    ensures ProcOk(t, p, r)
  {
  }

  lemma StatementKeeps(s: Sys, p: nat, o: Outcome)
    requires WellLocked(s) && p in s.procs && s.procs[p].phase.Critical? && Active(s.procs[p].phase.thread)
    ensures WellLocked(Statement(s, p, o))
  {
    var t := Statement(s, p, o);
    assert ProcOk(s, p, s.procs[p]);
    StatementLeavesLocks(s, p, o);
    StillOk(s, t, p, s.procs[p], t.procs[p]);
    TableMoveKeeps(s, t, p);
  }

  /** Every event keeps the locking invariant. */
  lemma EventKeepsLocks(s: Sys, e: Event)
    requires WellLocked(s) && Enabled(s, e)
    ensures WellLocked(Apply(s, e))
  {
    match e
    case Spawn(_) => SpawnKeepsLocks(s, e);
    case Crash => CrashKeepsLocks(s);
    case Advance(p, o) =>
      match s.procs[p].phase
      case WantCreateGuard => TakeCreateGuardKeeps(s, p, o);
      case InCreateTable => BindCreateKeeps(s, p);
      case LeaveCreateGuard(_) => LeaveCreateGuardKeeps(s, p, o);
      case WantCreate(_) => AcquireCreateKeeps(s, p, o);
      case WantServiceGuard(_) => TakeServiceGuardKeeps(s, p, o);
      case InServiceTable(_) => BindServiceKeeps(s, p);
      case LeaveServiceGuard(_, _) => LeaveServiceGuardKeeps(s, p, o);
      case WantService(_, _) => AcquireServiceKeeps(s, p, o);
      case Critical(_, _, _, t) =>
        if Active(t) {
          StatementKeeps(s, p, o);
        } else {
          ReleaseServiceKeeps(s, p);
        }
      case ReleaseCreate(_, _, _) => ReleaseCreateKeeps(s, p, o);
  }

  lemma NextProcIsNew(s: Sys)
    requires WellLocked(s)
    ensures s.nextProc !in s.procs
  {
    assert forall p :: p in s.procs ==> ProcOk(s, p, s.procs[p]) && p < s.nextProc;
  }

  lemma SpawnKeepsLocks(s: Sys, e: Event)
    requires WellLocked(s) && Enabled(s, e) && e.Spawn?
    ensures WellLocked(Apply(s, e))
  {
    var t := Apply(s, e);
    assert s.nextProc !in s.procs;
    forall q | q in t.procs ensures ProcOk(t, q, t.procs[q]) {
      assert q in s.procs ==> ProcOk(s, q, s.procs[q]);
    }
  }

  lemma CrashKeepsLocks(s: Sys)
    requires WellLocked(s)
    ensures WellLocked(Apply(s, Crash))
  {
    var t := Apply(s, Crash);
    forall p | p in t.procs ensures ProcOk(t, p, t.procs[p]) {
      assert ProcOk(s, p, s.procs[p]);
    }
  }

  lemma {:induction false} PlayKeepsLocks(s: Sys, events: seq<Event>)
    requires WellLocked(s) && Play(s, events).Some?
    ensures WellLocked(Play(s, events).value)
  {
    if events != [] {
      PlaySnoc(s, events);
      PlayKeepsLocks(s, events[..|events| - 1]);
      EventKeepsLocks(Play(s, events[..|events| - 1]).value, events[|events| - 1]);
    }
  }

  /** In every reachable state the locking invariant holds. */
  lemma ReachableWellLocked(stores: Stores, audit: seq<Record>, allowDrop: bool, s: Sys)
    requires Reachable(stores, audit, allowDrop, s)
    ensures WellLocked(s)
  {
    var init := Initial(stores, audit, allowDrop);
    var events :| Play(init, events) == Some(s);
    PlayKeepsLocks(init, events);
  }

  // ---------------------------------------------------------------- what the discipline gives

  predicate InCriticalSection(s: Sys, p: nat, name: string) {
    p in s.procs && s.procs[p].phase.Critical? && s.procs[p].call.name == name
  }

  lemma LockedExcludes(s: Sys, p: nat, q: nat, name: string)
    requires WellLocked(s) && InCriticalSection(s, p, name) && InCriticalSection(s, q, name)
    ensures p == q
  {
    assert ProcOk(s, p, s.procs[p]) && ProcOk(s, q, s.procs[q]);
  }

  /** At most one call is inside the critical section of a name. */
  lemma MutualExclusion(stores: Stores, audit: seq<Record>, allowDrop: bool, s: Sys, p: nat, q: nat, name: string)
    requires Reachable(stores, audit, allowDrop, s)
    requires InCriticalSection(s, p, name) && InCriticalSection(s, q, name)
    ensures p == q
  {
    ReachableWellLocked(stores, audit, allowDrop, s);
    LockedExcludes(s, p, q, name);
  }

  /** Short of a crash, the registries only grow and never rebind a name. */
  lemma RegistriesOnlyGrow(s: Sys, e: Event)
    requires Enabled(s, e) && !e.Crash?
    ensures Extends(s.create.table, Apply(s, e).create.table)
    ensures Extends(s.service.table, Apply(s, e).service.table)
  {
    if e.Advance? {
      if BeforeCreateMutex(s.procs[e.proc].phase) {
        CreateLockExtendsTables(s, e.proc, e.outcome);
      } else if s.procs[e.proc].phase.Critical? {
        CriticalKeepsTables(s, e.proc, e.outcome);
      } else {
        ServiceLockExtendsTables(s, e.proc, e.outcome);
      }
    }
  }

  lemma CriticalKeepsTables(s: Sys, p: nat, o: Outcome)
    requires p in s.procs && s.procs[p].phase.Critical?
    ensures ProcStep(s, p, o).create == s.create && ProcStep(s, p, o).service == s.service
  {
  }

  lemma CreateLockExtendsTables(s: Sys, p: nat, o: Outcome)
    requires p in s.procs && CanStep(s, p) && BeforeCreateMutex(s.procs[p].phase)
    ensures Extends(s.create.table, ProcStep(s, p, o).create.table)
    ensures ProcStep(s, p, o).service.table == s.service.table
  {
  }

  lemma ServiceLockExtendsTables(s: Sys, p: nat, o: Outcome)
    requires p in s.procs && CanStep(s, p) && !BeforeCreateMutex(s.procs[p].phase) && !s.procs[p].phase.Critical?
    ensures ProcStep(s, p, o).create.table == s.create.table
    ensures Extends(s.service.table, ProcStep(s, p, o).service.table)
  {
  }

  predicate WantsNameMutex(ph: Phase) {
    ph.WantCreate? || ph.WantService?
  }

  /**
   A registry guard is never held while waiting for a per-name mutex, a Create
   holds its create mutex whenever it holds a service mutex, and Rotate and
   Delete never touch a create mutex.
   */
  lemma LockOrder(stores: Stores, audit: seq<Record>, allowDrop: bool, s: Sys, p: nat)
    requires Reachable(stores, audit, allowDrop, s) && p in s.procs
    ensures var q := s.procs[p];
      && (s.create.guard == Some(p) || s.service.guard == Some(p) ==> !WantsNameMutex(q.phase) && CanStep(s, p))
      && (OwnedService(q.phase).Some? && q.call.op.CreateOp? ==> OwnedCreate(q.phase).Some?)
      && (!q.call.op.CreateOp? ==> CreateMutex(q.phase).None? || q.phase.Exited?)
  {
    ReachableWellLocked(stores, audit, allowDrop, s);
    assert ProcOk(s, p, s.procs[p]);
  }

  /** Who stands in the way of a process that waits for a service lock or for nothing. */
  function Blocker(s: Sys, p: nat): (r: nat)
    requires WellLocked(s) && p in s.procs && !s.procs[p].phase.Exited? && !BeforeCreateMutex(s.procs[p].phase)
    ensures r in s.procs && CanStep(s, r)
  {
    assert ProcOk(s, p, s.procs[p]);
    match s.procs[p].phase
    case WantServiceGuard(_) => if s.service.guard.Some? then s.service.guard.value else p
    case WantService(_, m) =>
      if m in s.owner then
        assert ProcOk(s, s.owner[m], s.procs[s.owner[m]]);
        s.owner[m]
      else p
    case _ => p
  }

  /** As long as some call is unfinished, some call can step. */
  lemma SomeoneCanStep(s: Sys, p: nat)
    requires WellLocked(s) && p in s.procs && !s.procs[p].phase.Exited?
    ensures exists q :: q in s.procs && CanStep(s, q)
  {
    assert ProcOk(s, p, s.procs[p]);
    if !BeforeCreateMutex(s.procs[p].phase) {
      var q := Blocker(s, p);
    } else if s.procs[p].phase.WantCreateGuard? && s.create.guard.Some? {
      var q := s.create.guard.value;
      assert CanStep(s, q);
    } else if s.procs[p].phase.WantCreate? && s.procs[p].phase.mutex in s.owner {
      var q := s.owner[s.procs[p].phase.mutex];
      assert ProcOk(s, q, s.procs[q]);
      var r := Blocker(s, q);
    } else {
      assert CanStep(s, p);
    }
  }

  lemma DeadlockFreedom(stores: Stores, audit: seq<Record>, allowDrop: bool, s: Sys, p: nat)
    requires Reachable(stores, audit, allowDrop, s)
    requires p in s.procs && !s.procs[p].phase.Exited?
    ensures exists q :: q in s.procs && CanStep(s, q) && forall o :: Enabled(s, Advance(q, o))
  {
    ReachableWellLocked(stores, audit, allowDrop, s);
    SomeoneCanStep(s, p);
    var q :| q in s.procs && CanStep(s, q);
    assert forall o :: Enabled(s, Advance(q, o));
  }
}

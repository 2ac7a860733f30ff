/**
 What one project's slice satisfies at every point of every call on it: the
 history facts that are recorded beside it, the invariant, and the proof that
 each statement keeps the invariant whatever its outcome.
 */
module Lifecycle {
  import opened Common
  import opened EnvFile
  import opened Stores
  import opened Calls

  datatype SliceProgress = SliceProgress(slice: Slice, thread: Thread)

  function SliceStep(s: Slice, t: Thread, o: Outcome): SliceProgress
    requires Active(t)
  {
    var e := PerformOnSlice(s, ActionOf(t), o);
    SliceProgress(e.slice, Resume(t, e.reply))
  }

  // ---------------------------------------------------------------- keys

  predicate RowKeyed(row: Option<Row>, k: Keys) {
    row.Some? ==> row.value.database == k.db && row.value.user == k.user
  }

  predicate BeforeLookup(pc: Pc) {
    pc.RLookup? || pc.RMissing? || pc.DLookup? || pc.DMissing? || pc.Finished?
  }

  predicate Keyed(t: Thread, k: Keys) {
    t.call.name == k.name && (BeforeLookup(t.pc) || (t.db == k.db && t.user == k.user))
  }

  lemma KeyedOwns(t: Thread, k: Keys)
    requires Keyed(t, k) && Active(t)
    ensures Owns(k, ActionOf(t))
  {
  }

  // ---------------------------------------------------------------- the position of a call

  predicate Full(a: Option<Account>, k: Keys, allow: bool) {
    a.Some? && GrantSet(k.db, Privileges(allow)) <= a.value.grants
  }

  predicate HasPassword(a: Option<Account>, password: string) {
    a.Some? && a.value.password == password
  }

  predicate InStatus(s: Slice, status: Status) {
    s.row.Some? && s.row.value.status == status
  }

  /** What holds of the slice while a Create is at the given point. */
  predicate CreateAt(s: Slice, t: Thread, k: Keys) {
    var allow := t.call.allowDrop;
    match t.pc
    case CLookup => true
    case CIdempotent(row) => s.row == Some(row) && row.status.Ready?
    case CInsert => s.row.None?
    case CDraw => InStatus(s, Pending)
    case CDatabase => InStatus(s, Pending)
    case CUser(h) => InStatus(s, Pending) && s.db && (h.Localhost? ==> s.loopback.Some?)
    case CGrant(h) =>
      InStatus(s, Pending) && s.db && s.loopback.Some? && s.localhost.Some? && (h.Localhost? ==> Full(s.loopback, k, allow))
    case CFlush => InStatus(s, Pending) && s.db && Full(s.loopback, k, allow) && Full(s.localhost, k, allow)
    case CSecret => InStatus(s, Pending) && s.db && Full(s.loopback, k, allow) && Full(s.localhost, k, allow)
    case CReady =>
      && InStatus(s, Pending) && s.db && Full(s.loopback, k, allow) && Full(s.localhost, k, allow)
      && s.file == Some(Secret(k.name, k.db, k.user, t.call.password))
    case CFinal => InStatus(s, Ready)
    case CCreated(row) => s.row == Some(row) && row.status.Ready?
    case CUndoUser(_) => InStatus(s, Pending)
    case CUndoDatabase(f) => InStatus(s, Pending) && !f.NoFault?
    case CMark(f) => InStatus(s, Pending) && !f.NoFault?
    case CFailed(_) => true
    case Finished(_) => true
    case _ => false
  }

  predicate RotateAt(s: Slice, t: Thread) {
    match t.pc
    case RLookup => true
    case RMissing => true
    case RDraw => s.row.Some?
    case RAlter(h) => s.row.Some? && (h.Localhost? ==> HasPassword(s.loopback, t.call.password))
    case RSecret => s.row.Some? && HasPassword(s.loopback, t.call.password) && HasPassword(s.localhost, t.call.password)
    case RRotated => true
    case RFinal => true
    case RFailed(_) => true
    case Finished(_) => true
    case _ => false
  }

  predicate DeleteAt(s: Slice, t: Thread) {
    match t.pc
    case DLookup => true
    case DMissing => true
    case DDatabase => s.row.Some?
    case DUser(h, p) => s.row.Some? && (p == [] ==> !s.db && (h.Localhost? ==> s.loopback.None?))
    case DSecret(p) => s.row.Some? && (p == [] ==> !s.db && s.loopback.None? && s.localhost.None?)
    case DRow(p) => s.row.Some? && (p == [] ==> !s.db && s.loopback.None? && s.localhost.None? && s.file.None?)
    case DDeleted => s.row.None?
    case DPartial(p) => p != []
    case Finished(_) => true
    case _ => false
  }

  predicate Positioned(s: Slice, t: Thread, k: Keys) {
    && Keyed(t, k) && RowKeyed(s.row, k)
    && match t.call.op
       case CreateOp => CreateAt(s, t, k)
       case RotateOp => RotateAt(s, t)
       case DeleteOp => DeleteAt(s, t)
  }

  // ---------------------------------------------------------------- history facts

  /** A Create that returned a new project, and a row removal that took effect. */
  datatype Mark = Made | Gone

  /** Facts about the past of one project. They are recorded, and no statement reads them. */
  datatype Monitor = Monitor(
    leftover: bool, // the Create of the row met an existing account, and no Rotate succeeded since
    torn: bool,     // an ALTER USER took effect on the row's accounts and no secret write of a Rotate succeeded since
    deleting: bool, // a Delete passed its lookup since the row was inserted
    orphaned: bool, // the last row removal took effect although a drop before it had failed
    exact: bool,    // every store and audit statement succeeded, no Delete ended partial, no crash hit an open gap
    gap: bool,      // the row changed and the audit record of that change is not written yet
    marks: seq<Mark>)

  const FRESH := Monitor(false, false, false, false, true, false, [])

  /** What one statement adds to the facts; `s` is the slice before it. */
  function Observe(m: Monitor, s: Slice, t: Thread, o: Outcome): Monitor
    requires Active(t)
  {
    var a := ActionOf(t);
    var n := Note(m, s, t, o);
    if (OnRow(a) || a.WriteAudit?) && !o.Done? then n.(exact := false) else n
  }

  function Note(m: Monitor, s: Slice, t: Thread, o: Outcome): Monitor
    requires Active(t)
  {
    match t.pc
    case CInsert => if s.row.None? && o.Applies() then m.(leftover := false, torn := false, deleting := false) else m
    case CUser(h) => if s.At(h).Some? then m.(leftover := true) else m
    case CReady => if o.Applies() then m.(gap := true) else m
    case CCreated(_) => m.(gap := false, marks := m.marks + [Made])
    case CFailed(_) => m.(gap := false)
    case RAlter(h) => if s.At(h).Some? && o.Applies() then m.(torn := true) else m
    case RSecret => if PerformOnSlice(s, ActionOf(t), o).reply.Ok? then m.(torn := false, leftover := false) else m
    case DLookup => if o.Done? && s.row.Some? then m.(deleting := true) else m
    case DRow(p) =>
      if o.Applies() then m.(orphaned := p != [], gap := true, marks := m.marks + [Gone], exact := m.exact && p == []) else m
    case DDeleted => m.(gap := false)
    case DPartial(_) => m.(gap := false)
    case _ => m
  }

  /** A crash between a row change and its audit record leaves the log behind the table. */
  function Crashed(m: Monitor): Monitor {
    m.(exact := m.exact && !m.gap, gap := false)
  }

  // ---------------------------------------------------------------- the invariant

  predicate Bare(s: Slice) {
    !s.db && s.loopback.None? && s.localhost.None? && s.file.None?
  }

  /** The database, both accounts with every privilege, and a secret file naming them. */
  predicate Complete(s: Slice, k: Keys, allow: bool) {
    && s.db && Full(s.loopback, k, allow) && Full(s.localhost, k, allow)
    && s.file.Some? && s.file.value.name == k.name && s.file.value.database == k.db && s.file.value.user == k.user
  }

  /** The secret file's password opens both accounts. */
  predicate Agreed(s: Slice) {
    s.file.Some? && HasPassword(s.loopback, s.file.value.password) && HasPassword(s.localhost, s.file.value.password)
  }

  predicate Confined(a: Option<Account>, k: Keys, allow: bool) {
    a.Some? ==> a.value.grants <= GrantSet(k.db, Privileges(allow))
  }

  predicate RowSound(row: Row) {
    !row.status.Deleted? && (row.status.Error? <==> !row.lastError.NoFault?)
  }

  predicate EndsMade(marks: seq<Mark>) {
    marks != [] && marks[|marks| - 1].Made?
  }

  predicate NeverTwice(marks: seq<Mark>) {
    forall i :: 0 <= i < |marks| - 1 ==> !(marks[i].Made? && marks[i + 1].Made?)
  }

  /** Holds of a project's slice in every reachable state, whether or not a call is at work. */
  predicate Sound(s: Slice, m: Monitor, k: Keys, allow: bool) {
    && RowKeyed(s.row, k)
    && (s.row.Some? ==> RowSound(s.row.value))
    && (s.row.None? && !m.orphaned ==> Bare(s))
    && (InStatus(s, Ready) && !m.deleting ==> Complete(s, k, allow))
    && (InStatus(s, Ready) && !m.deleting && !m.leftover && !m.torn ==> Agreed(s))
    && Confined(s.loopback, k, allow) && Confined(s.localhost, k, allow)
    && (m.exact && !m.gap ==> (s.listed <==> InStatus(s, Ready)))
    && NeverTwice(m.marks) && (EndsMade(m.marks) ==> s.row.Some?)
  }

  /** The passwords a Create has set so far, when no account was left over. */
  predicate OwnPasswords(s: Slice, m: Monitor, t: Thread) {
    !m.leftover ==>
      && (t.pc == CUser(Localhost) || t.pc.CGrant? || t.pc.CFlush? || t.pc.CSecret? || t.pc.CReady? ==>
          HasPassword(s.loopback, t.call.password))
      && (t.pc.CGrant? || t.pc.CFlush? || t.pc.CSecret? || t.pc.CReady? ==> HasPassword(s.localhost, t.call.password))
  }

  predicate GapAt(m: Monitor, pc: Pc) {
    m.gap ==> pc.CFinal? || pc.CCreated? || pc.DDeleted? || (!m.exact && (pc.CFailed? || pc.DPartial?))
  }

  predicate Creating(pc: Pc) {
    pc.CDraw? || pc.CDatabase? || pc.CUser? || pc.CGrant? || pc.CFlush? || pc.CSecret? || pc.CReady?
    || pc.CFinal? || pc.CCreated?
  }

  /** What more holds while the given call is in its critical section. */
  predicate Busy(s: Slice, m: Monitor, t: Thread, k: Keys, allow: bool) {
    && Positioned(s, t, k)
    && t.call.allowDrop == allow
    && OwnPasswords(s, m, t)
    && GapAt(m, t.pc)
    && (t.pc.DDatabase? || t.pc.DUser? || t.pc.DSecret? || t.pc.DRow? ==> m.deleting)
    && (Creating(t.pc) ==> !EndsMade(m.marks))
  }

  /** Facts may only get less favourable; an open gap may close only with `exact` gone. */
  predicate Darkens(m: Monitor, n: Monitor) {
    && n.orphaned == m.orphaned && n.marks == m.marks
    && (m.deleting ==> n.deleting) && (m.leftover ==> n.leftover) && (m.torn ==> n.torn)
    && (n.exact ==> m.exact && (m.gap ==> n.gap))
  }

  lemma SoundUnderMonitor(s: Slice, m: Monitor, n: Monitor, k: Keys, allow: bool)
    requires Sound(s, m, k, allow) && Darkens(m, n)
    ensures Sound(s, n, k, allow)
  {
  }

  /** A call that ends without changing the slice. */
  lemma EndKeeps(s: Slice, m: Monitor, n: Monitor, t: Thread, k: Keys, allow: bool, r: CallResult)
    requires Sound(s, m, k, allow) && Busy(s, m, t, k, allow) && Darkens(m, n) && !n.gap
    ensures Sound(s, n, k, allow) && Busy(s, n, t.(pc := Finished(r)), k, allow)
  {
    SoundUnderMonitor(s, m, n, k, allow);
  }

  lemma CreateLookupKeeps(s: Slice, m: Monitor, t: Thread, k: Keys, allow: bool, o: Outcome)
    requires Sound(s, m, k, allow) && Busy(s, m, t, k, allow) && t.pc.CLookup?
    ensures var n, m' := SliceStep(s, t, o), Observe(m, s, t, o);
      Sound(n.slice, m', k, allow) && Busy(n.slice, m', n.thread, k, allow)
  {
    assert SliceStep(s, t, o).slice == s;
    SoundUnderMonitor(s, m, Observe(m, s, t, o), k, allow);
  }

  lemma CreateFinalKeeps(s: Slice, m: Monitor, t: Thread, k: Keys, allow: bool, o: Outcome)
    requires Sound(s, m, k, allow) && Busy(s, m, t, k, allow) && t.pc.CFinal?
    ensures var n, m' := SliceStep(s, t, o), Observe(m, s, t, o);
      Sound(n.slice, m', k, allow) && Busy(n.slice, m', n.thread, k, allow)
  {
    assert SliceStep(s, t, o).slice == s;
    SoundUnderMonitor(s, m, Observe(m, s, t, o), k, allow);
  }

  lemma RotateLookupStep(s: Slice, m: Monitor, t: Thread, o: Outcome)
    requires t.pc.RLookup?
    ensures SliceStep(s, t, o) == SliceProgress(
        s,
        (if o.Done? && s.row.Some? then Thread(t.call, s.row.value.database, s.row.value.user, RDraw)
       else t.(pc := if o.Done? then RMissing else Finished(FailedWith(LookupFault)))))
    ensures Observe(m, s, t, o) == m.(exact := m.exact && o.Done?)
  {
  }

  lemma RotateLookupKept(s: Slice, m: Monitor, t: Thread, k: Keys, allow: bool, o: Outcome)
    requires Sound(s, m, k, allow) && Busy(s, m, t, k, allow) && t.pc.RLookup?
    ensures var n, m', u :=
        s,
        m.(exact := m.exact && o.Done?),
        (if o.Done? && s.row.Some? then Thread(t.call, s.row.value.database, s.row.value.user, RDraw)
          else t.(pc := if o.Done? then RMissing else Finished(FailedWith(LookupFault))));
      Sound(n, m', k, allow) && Busy(n, m', u, k, allow)
  {
    SoundUnderMonitor(s, m, m.(exact := m.exact && o.Done?), k, allow);
  }

  lemma RotateLookupKeeps(s: Slice, m: Monitor, t: Thread, k: Keys, allow: bool, o: Outcome)
    requires Sound(s, m, k, allow) && Busy(s, m, t, k, allow) && t.pc.RLookup?
    ensures var n, m' := SliceStep(s, t, o), Observe(m, s, t, o);
      Sound(n.slice, m', k, allow) && Busy(n.slice, m', n.thread, k, allow)
  {
    RotateLookupStep(s, m, t, o);
    RotateLookupKept(s, m, t, k, allow, o);
  }

  function ReadBack(row: Option<Row>, o: Outcome): CallResult {
    if !o.Done? then FailedWith(LookupFault) else if row.Some? then Rotated(row.value) else NotFound
  }

  lemma RotateFinalStep(s: Slice, m: Monitor, t: Thread, o: Outcome)
    requires t.pc.RFinal?
    ensures SliceStep(s, t, o) == SliceProgress(s, t.(pc := Finished(ReadBack(s.row, o))))
    ensures Observe(m, s, t, o) == m.(exact := m.exact && o.Done?)
  {
  }

  lemma RotateFinalKeeps(s: Slice, m: Monitor, t: Thread, k: Keys, allow: bool, o: Outcome)
    requires Sound(s, m, k, allow) && Busy(s, m, t, k, allow) && t.pc.RFinal?
    ensures var n, m' := SliceStep(s, t, o), Observe(m, s, t, o);
      Sound(n.slice, m', k, allow) && Busy(n.slice, m', n.thread, k, allow)
  {
    RotateFinalStep(s, m, t, o);
    EndKeeps(s, m, m.(exact := m.exact && o.Done?), t, k, allow, ReadBack(s.row, o));
  }

  lemma DeleteFindsKeeps(s: Slice, m: Monitor, t: Thread, k: Keys, allow: bool, o: Outcome)
    requires Sound(s, m, k, allow) && Busy(s, m, t, k, allow) && t.pc.DLookup? && o.Done? && s.row.Some?
    ensures var n, m' := SliceStep(s, t, o), Observe(m, s, t, o);
      Sound(n.slice, m', k, allow) && Busy(n.slice, m', n.thread, k, allow)
  {
    assert SliceStep(s, t, o) == SliceProgress(s, Thread(t.call, k.db, k.user, DDatabase));
    SoundUnderMonitor(s, m, m.(deleting := true), k, allow);
  }

  lemma DeleteMissesStep(s: Slice, m: Monitor, t: Thread, o: Outcome)
    requires t.pc.DLookup? && (!o.Done? || s.row.None?)
    ensures SliceStep(s, t, o) == SliceProgress(
        s,
        t.(pc := if o.Done? then DMissing else Finished(FailedWith(LookupFault))))
    ensures Observe(m, s, t, o) == m.(exact := m.exact && o.Done?)
  {
  }

  lemma DeleteMissesKept(s: Slice, m: Monitor, t: Thread, k: Keys, allow: bool, o: Outcome)
    requires Sound(s, m, k, allow) && Busy(s, m, t, k, allow) && t.pc.DLookup? && (!o.Done? || s.row.None?)
    ensures var n, m', u :=
        s,
        m.(exact := m.exact && o.Done?),
        t.(pc := if o.Done? then DMissing else Finished(FailedWith(LookupFault)));
      Sound(n, m', k, allow) && Busy(n, m', u, k, allow)
  {
    SoundUnderMonitor(s, m, m.(exact := m.exact && o.Done?), k, allow);
  }

  lemma DeleteMissesKeeps(s: Slice, m: Monitor, t: Thread, k: Keys, allow: bool, o: Outcome)
    requires Sound(s, m, k, allow) && Busy(s, m, t, k, allow) && t.pc.DLookup? && (!o.Done? || s.row.None?)
    ensures var n, m' := SliceStep(s, t, o), Observe(m, s, t, o);
      Sound(n.slice, m', k, allow) && Busy(n.slice, m', n.thread, k, allow)
  {
    DeleteMissesStep(s, m, t, o);
    DeleteMissesKept(s, m, t, k, allow, o);
  }

  lemma InsertKeeps(s: Slice, m: Monitor, t: Thread, k: Keys, allow: bool, o: Outcome)
    requires Sound(s, m, k, allow) && Busy(s, m, t, k, allow) && t.pc.CInsert?
    ensures var n, m' := SliceStep(s, t, o), Observe(m, s, t, o);
      Sound(n.slice, m', k, allow) && Busy(n.slice, m', n.thread, k, allow)
  {
  }

  lemma CreateDrawKeeps(s: Slice, m: Monitor, t: Thread, k: Keys, allow: bool, o: Outcome)
    requires Sound(s, m, k, allow) && Busy(s, m, t, k, allow) && t.pc.CDraw?
    ensures var n, m' := SliceStep(s, t, o), Observe(m, s, t, o);
      Sound(n.slice, m', k, allow) && Busy(n.slice, m', n.thread, k, allow)
  {
    assert SliceStep(s, t, o).slice == s;
    SoundUnderMonitor(s, m, Observe(m, s, t, o), k, allow);
  }

  lemma RotateDrawKeeps(s: Slice, m: Monitor, t: Thread, k: Keys, allow: bool, o: Outcome)
    requires Sound(s, m, k, allow) && Busy(s, m, t, k, allow) && t.pc.RDraw?
    ensures var n, m' := SliceStep(s, t, o), Observe(m, s, t, o);
      Sound(n.slice, m', k, allow) && Busy(n.slice, m', n.thread, k, allow)
  {
    assert SliceStep(s, t, o).slice == s;
    SoundUnderMonitor(s, m, Observe(m, s, t, o), k, allow);
  }

  lemma CreateDatabaseKeeps(s: Slice, m: Monitor, t: Thread, k: Keys, allow: bool, o: Outcome)
    requires Sound(s, m, k, allow) && Busy(s, m, t, k, allow) && t.pc.CDatabase?
    ensures var n, m' := SliceStep(s, t, o), Observe(m, s, t, o);
      Sound(n.slice, m', k, allow) && Busy(n.slice, m', n.thread, k, allow)
  {
  }

  lemma UndoDatabaseKeeps(s: Slice, m: Monitor, t: Thread, k: Keys, allow: bool, o: Outcome)
    requires Sound(s, m, k, allow) && Busy(s, m, t, k, allow) && t.pc.CUndoDatabase?
    ensures var n, m' := SliceStep(s, t, o), Observe(m, s, t, o);
      Sound(n.slice, m', k, allow) && Busy(n.slice, m', n.thread, k, allow)
  {
  }

  lemma DropDatabaseKeeps(s: Slice, m: Monitor, t: Thread, k: Keys, allow: bool, o: Outcome)
    requires Sound(s, m, k, allow) && Busy(s, m, t, k, allow) && t.pc.DDatabase?
    ensures var n, m' := SliceStep(s, t, o), Observe(m, s, t, o);
      Sound(n.slice, m', k, allow) && Busy(n.slice, m', n.thread, k, allow)
  {
  }

  lemma CreateUserStep(s: Slice, m: Monitor, t: Thread, o: Outcome)
    requires t.pc.CUser?
    ensures SliceStep(s, t, o) == SliceProgress(
        s.With(t.pc.host, if o.Applies() && s.At(t.pc.host).None? then Some(Account(t.call.password, {}))
                          else s.At(t.pc.host)),
        t.(pc := if !o.Done? then CUndoDatabase(UserFault)
                 else if t.pc.host.Loopback? then CUser(Localhost) else CGrant(Loopback)))
    ensures Observe(m, s, t, o) == (if s.At(t.pc.host).Some? then m.(leftover := true) else m)
  {
  }

  lemma CreateUserKept(s: Slice, m: Monitor, t: Thread, k: Keys, allow: bool, o: Outcome)
    requires Sound(s, m, k, allow) && Busy(s, m, t, k, allow) && t.pc.CUser?
    ensures var n, m', u :=
        s.With(t.pc.host, if o.Applies() && s.At(t.pc.host).None? then Some(Account(t.call.password, {}))
                          else s.At(t.pc.host)),
        (if s.At(t.pc.host).Some? then m.(leftover := true) else m),
        t.(pc := if !o.Done? then CUndoDatabase(UserFault)
                 else if t.pc.host.Loopback? then CUser(Localhost) else CGrant(Loopback));
      Sound(n, m', k, allow) && Busy(n, m', u, k, allow)
  {
  }

  lemma CreateUserKeeps(s: Slice, m: Monitor, t: Thread, k: Keys, allow: bool, o: Outcome)
    requires Sound(s, m, k, allow) && Busy(s, m, t, k, allow) && t.pc.CUser?
    ensures var n, m' := SliceStep(s, t, o), Observe(m, s, t, o);
      Sound(n.slice, m', k, allow) && Busy(n.slice, m', n.thread, k, allow)
  {
    CreateUserStep(s, m, t, o);
    CreateUserKept(s, m, t, k, allow, o);
  }

  lemma GrantKeeps(s: Slice, m: Monitor, t: Thread, k: Keys, allow: bool, o: Outcome)
    requires Sound(s, m, k, allow) && Busy(s, m, t, k, allow) && t.pc.CGrant?
    ensures var n, m' := SliceStep(s, t, o), Observe(m, s, t, o);
      Sound(n.slice, m', k, allow) && Busy(n.slice, m', n.thread, k, allow)
  {
  }

  lemma FlushKeeps(s: Slice, m: Monitor, t: Thread, k: Keys, allow: bool, o: Outcome)
    requires Sound(s, m, k, allow) && Busy(s, m, t, k, allow) && t.pc.CFlush?
    ensures var n, m' := SliceStep(s, t, o), Observe(m, s, t, o);
      Sound(n.slice, m', k, allow) && Busy(n.slice, m', n.thread, k, allow)
  {
    assert SliceStep(s, t, o).slice == s;
    SoundUnderMonitor(s, m, Observe(m, s, t, o), k, allow);
  }

  lemma UndoUserStep(s: Slice, m: Monitor, t: Thread, o: Outcome)
    requires t.pc.CUndoUser?
    ensures SliceStep(s, t, o) == SliceProgress(
        s.With(t.pc.host, if o.Applies() then None else s.At(t.pc.host)),
        t.(pc := if o.Done? && t.pc.host.Loopback? then CUndoUser(Localhost) else CUndoDatabase(GrantFault)))
    ensures Observe(m, s, t, o) == m
  {
  }

  lemma UndoUserKept(s: Slice, m: Monitor, t: Thread, k: Keys, allow: bool, o: Outcome)
    requires Sound(s, m, k, allow) && Busy(s, m, t, k, allow) && t.pc.CUndoUser?
    ensures var n, m', u :=
        s.With(t.pc.host, if o.Applies() then None else s.At(t.pc.host)),
        m,
        t.(pc := if o.Done? && t.pc.host.Loopback? then CUndoUser(Localhost) else CUndoDatabase(GrantFault));
      Sound(n, m', k, allow) && Busy(n, m', u, k, allow)
  {
  }

  lemma UndoUserKeeps(s: Slice, m: Monitor, t: Thread, k: Keys, allow: bool, o: Outcome)
    requires Sound(s, m, k, allow) && Busy(s, m, t, k, allow) && t.pc.CUndoUser?
    ensures var n, m' := SliceStep(s, t, o), Observe(m, s, t, o);
      Sound(n.slice, m', k, allow) && Busy(n.slice, m', n.thread, k, allow)
  {
    UndoUserStep(s, m, t, o);
    UndoUserKept(s, m, t, k, allow, o);
  }

  lemma DropUserStep(s: Slice, m: Monitor, t: Thread, o: Outcome)
    requires t.pc.DUser?
    ensures SliceStep(s, t, o) == SliceProgress(
        s.With(t.pc.host, if o.Applies() then None else s.At(t.pc.host)),
        t.(pc := if o.Done? && t.pc.host.Loopback? then DUser(Localhost, t.pc.partial)
                else DSecret(if o.Done? then t.pc.partial else t.pc.partial + [DropUserFault])))
    ensures Observe(m, s, t, o) == m
  {
  }

  lemma DropUserKept(s: Slice, m: Monitor, t: Thread, k: Keys, allow: bool, o: Outcome)
    requires Sound(s, m, k, allow) && Busy(s, m, t, k, allow) && t.pc.DUser?
    ensures var n, m', u :=
        s.With(t.pc.host, if o.Applies() then None else s.At(t.pc.host)),
        m,
        t.(pc := if o.Done? && t.pc.host.Loopback? then DUser(Localhost, t.pc.partial)
                 else DSecret(if o.Done? then t.pc.partial else t.pc.partial + [DropUserFault]));
      Sound(n, m', k, allow) && Busy(n, m', u, k, allow)
  {
  }

  lemma DropUserKeeps(s: Slice, m: Monitor, t: Thread, k: Keys, allow: bool, o: Outcome)
    requires Sound(s, m, k, allow) && Busy(s, m, t, k, allow) && t.pc.DUser?
    ensures var n, m' := SliceStep(s, t, o), Observe(m, s, t, o);
      Sound(n.slice, m', k, allow) && Busy(n.slice, m', n.thread, k, allow)
  {
    DropUserStep(s, m, t, o);
    DropUserKept(s, m, t, k, allow, o);
  }

  lemma CreateSecretKeeps(s: Slice, m: Monitor, t: Thread, k: Keys, allow: bool, o: Outcome)
    requires Sound(s, m, k, allow) && Busy(s, m, t, k, allow) && t.pc.CSecret?
    ensures var n, m' := SliceStep(s, t, o), Observe(m, s, t, o);
      Sound(n.slice, m', k, allow) && Busy(n.slice, m', n.thread, k, allow)
  {
  }

  function Rendered(t: Thread): Secret {
    Secret(t.call.name, t.db, t.user, t.call.password)
  }

  predicate Writes(t: Thread, o: Outcome) {
    o.Done? && Accepts(Rendered(t))
  }

  lemma RotateSecretStep(s: Slice, m: Monitor, t: Thread, o: Outcome)
    requires t.pc.RSecret?
    ensures SliceStep(s, t, o) == SliceProgress(
        s.(file := if Writes(t, o) then Some(Rendered(t)) else s.file),
        t.(pc := if Writes(t, o) then RRotated else RFailed(SecretFault)))
    ensures Observe(m, s, t, o) == (if Writes(t, o) then m.(torn := false, leftover := false) else m)
  {
  }

  lemma RotateSecretKept(s: Slice, m: Monitor, t: Thread, k: Keys, allow: bool, o: Outcome)
    requires Sound(s, m, k, allow) && Busy(s, m, t, k, allow) && t.pc.RSecret?
    ensures var n, m', u :=
        s.(file := if Writes(t, o) then Some(Rendered(t)) else s.file),
        (if Writes(t, o) then m.(torn := false, leftover := false) else m),
        t.(pc := if Writes(t, o) then RRotated else RFailed(SecretFault));
      Sound(n, m', k, allow) && Busy(n, m', u, k, allow)
  {
  }

  lemma RotateSecretKeeps(s: Slice, m: Monitor, t: Thread, k: Keys, allow: bool, o: Outcome)
    requires Sound(s, m, k, allow) && Busy(s, m, t, k, allow) && t.pc.RSecret?
    ensures var n, m' := SliceStep(s, t, o), Observe(m, s, t, o);
      Sound(n.slice, m', k, allow) && Busy(n.slice, m', n.thread, k, allow)
  {
    RotateSecretStep(s, m, t, o);
    RotateSecretKept(s, m, t, k, allow, o);
  }

  lemma RemoveSecretStep(s: Slice, m: Monitor, t: Thread, o: Outcome)
    requires t.pc.DSecret?
    ensures SliceStep(s, t, o) == SliceProgress(
        s.(file := if o.Applies() then None else s.file),
        t.(pc := DRow(if o.Done? then t.pc.partial else t.pc.partial + [RemoveSecretFault])))
    ensures Observe(m, s, t, o) == m
  {
  }

  lemma RemoveSecretKept(s: Slice, m: Monitor, t: Thread, k: Keys, allow: bool, o: Outcome)
    requires Sound(s, m, k, allow) && Busy(s, m, t, k, allow) && t.pc.DSecret?
    ensures var n, m', u :=
        s.(file := if o.Applies() then None else s.file),
        m,
        t.(pc := DRow(if o.Done? then t.pc.partial else t.pc.partial + [RemoveSecretFault]));
      Sound(n, m', k, allow) && Busy(n, m', u, k, allow)
  {
  }

  lemma RemoveSecretKeeps(s: Slice, m: Monitor, t: Thread, k: Keys, allow: bool, o: Outcome)
    requires Sound(s, m, k, allow) && Busy(s, m, t, k, allow) && t.pc.DSecret?
    ensures var n, m' := SliceStep(s, t, o), Observe(m, s, t, o);
      Sound(n.slice, m', k, allow) && Busy(n.slice, m', n.thread, k, allow)
  {
    RemoveSecretStep(s, m, t, o);
    RemoveSecretKept(s, m, t, k, allow, o);
  }

  function Updated(row: Option<Row>, o: Outcome, status: Status, f: Fault): Option<Row> {
    if o.Applies() && row.Some? then Some(row.value.(status := status, lastError := f)) else row
  }

  lemma ReadyStep(s: Slice, m: Monitor, t: Thread, o: Outcome)
    requires t.pc.CReady?
    ensures SliceStep(s, t, o) == SliceProgress(
        s.(row := Updated(s.row, o, Ready, NoFault)),
        t.(pc := if o.Done? then CFinal else CFailed(StatusFault)))
    ensures Observe(m, s, t, o) == m.(gap := m.gap || o.Applies(), exact := m.exact && o.Done?)
  {
  }

  lemma ReadyKept(s: Slice, m: Monitor, t: Thread, k: Keys, allow: bool, o: Outcome)
    requires Sound(s, m, k, allow) && Busy(s, m, t, k, allow) && t.pc.CReady?
    ensures var n, m', u :=
        s.(row := Updated(s.row, o, Ready, NoFault)),
        m.(gap := m.gap || o.Applies(), exact := m.exact && o.Done?),
        t.(pc := if o.Done? then CFinal else CFailed(StatusFault));
      Sound(n, m', k, allow) && Busy(n, m', u, k, allow)
  {
  }

  lemma ReadyKeeps(s: Slice, m: Monitor, t: Thread, k: Keys, allow: bool, o: Outcome)
    requires Sound(s, m, k, allow) && Busy(s, m, t, k, allow) && t.pc.CReady?
    ensures var n, m' := SliceStep(s, t, o), Observe(m, s, t, o);
      Sound(n.slice, m', k, allow) && Busy(n.slice, m', n.thread, k, allow)
  {
    ReadyStep(s, m, t, o);
    ReadyKept(s, m, t, k, allow, o);
  }

  lemma MarkStep(s: Slice, m: Monitor, t: Thread, o: Outcome)
    requires t.pc.CMark?
    ensures SliceStep(s, t, o) == SliceProgress(
        s.(row := Updated(s.row, o, Error, t.pc.fault)),
        t.(pc := if t.pc.fault.DrawFault? then Finished(FailedWith(t.pc.fault)) else CFailed(t.pc.fault)))
    ensures Observe(m, s, t, o) == m.(exact := m.exact && o.Done?)
  {
  }

  lemma MarkKept(s: Slice, m: Monitor, t: Thread, k: Keys, allow: bool, o: Outcome)
    requires Sound(s, m, k, allow) && Busy(s, m, t, k, allow) && t.pc.CMark?
    ensures var n, m', u :=
        s.(row := Updated(s.row, o, Error, t.pc.fault)),
        m.(exact := m.exact && o.Done?),
        t.(pc := if t.pc.fault.DrawFault? then Finished(FailedWith(t.pc.fault)) else CFailed(t.pc.fault));
      Sound(n, m', k, allow) && Busy(n, m', u, k, allow)
  {
  }

  lemma MarkKeeps(s: Slice, m: Monitor, t: Thread, k: Keys, allow: bool, o: Outcome)
    requires Sound(s, m, k, allow) && Busy(s, m, t, k, allow) && t.pc.CMark?
    ensures var n, m' := SliceStep(s, t, o), Observe(m, s, t, o);
      Sound(n.slice, m', k, allow) && Busy(n.slice, m', n.thread, k, allow)
  {
    MarkStep(s, m, t, o);
    MarkKept(s, m, t, k, allow, o);
  }

  lemma AlterRefusedKeeps(s: Slice, m: Monitor, t: Thread, k: Keys, allow: bool, o: Outcome)
    requires Sound(s, m, k, allow) && Busy(s, m, t, k, allow) && t.pc.RAlter? && (s.At(t.pc.host).None? || !o.Applies())
    ensures var n, m' := SliceStep(s, t, o), Observe(m, s, t, o);
      Sound(n.slice, m', k, allow) && Busy(n.slice, m', n.thread, k, allow)
  {
    assert SliceStep(s, t, o).slice == s;
    SoundUnderMonitor(s, m, Observe(m, s, t, o), k, allow);
  }

  lemma AlterLoopbackKeeps(s: Slice, m: Monitor, t: Thread, k: Keys, allow: bool, o: Outcome)
    requires Sound(s, m, k, allow) && Busy(s, m, t, k, allow)
    requires t.pc == RAlter(Loopback) && s.loopback.Some? && o.Applies()
    ensures var n, m' := SliceStep(s, t, o), Observe(m, s, t, o);
      Sound(n.slice, m', k, allow) && Busy(n.slice, m', n.thread, k, allow)
  {
  }

  lemma AlterLocalhostKeeps(s: Slice, m: Monitor, t: Thread, k: Keys, allow: bool, o: Outcome)
    requires Sound(s, m, k, allow) && Busy(s, m, t, k, allow)
    requires t.pc == RAlter(Localhost) && s.localhost.Some? && o.Applies()
    ensures var n, m' := SliceStep(s, t, o), Observe(m, s, t, o);
      Sound(n.slice, m', k, allow) && Busy(n.slice, m', n.thread, k, allow)
  {
  }

  lemma DeleteRowRefusedKeeps(s: Slice, m: Monitor, t: Thread, k: Keys, allow: bool, o: Outcome)
    requires Sound(s, m, k, allow) && Busy(s, m, t, k, allow) && t.pc.DRow? && !o.Applies()
    ensures var n, m' := SliceStep(s, t, o), Observe(m, s, t, o);
      Sound(n.slice, m', k, allow) && Busy(n.slice, m', n.thread, k, allow)
  {
    assert SliceStep(s, t, o) == SliceProgress(s, t.(pc := DPartial(t.pc.partial + [DeleteRowFault])));
    SoundUnderMonitor(s, m, Observe(m, s, t, o), k, allow);
  }

  lemma DeleteRowStep(s: Slice, m: Monitor, t: Thread, o: Outcome)
    requires t.pc.DRow? && o.Applies()
    ensures SliceStep(s, t, o) == SliceProgress(
        s.(row := None),
        t.(pc := if (if o.Done? then t.pc.partial else t.pc.partial + [DeleteRowFault]) == [] then DDeleted
                 else DPartial(if o.Done? then t.pc.partial else t.pc.partial + [DeleteRowFault])))
    ensures Observe(m, s, t, o) ==
      m.(orphaned := t.pc.partial != [], gap := true, marks := m.marks + [Gone],
         exact := m.exact && o.Done? && t.pc.partial == [])
  {
  }

  lemma DeleteRowKept(s: Slice, m: Monitor, t: Thread, k: Keys, allow: bool, o: Outcome)
    requires Sound(s, m, k, allow) && Busy(s, m, t, k, allow) && t.pc.DRow? && o.Applies()
    ensures var n, m', u :=
        s.(row := None),
        m.(orphaned := t.pc.partial != [], gap := true, marks := m.marks + [Gone],
           exact := m.exact && o.Done? && t.pc.partial == []),
        t.(pc := if (if o.Done? then t.pc.partial else t.pc.partial + [DeleteRowFault]) == [] then DDeleted
                 else DPartial(if o.Done? then t.pc.partial else t.pc.partial + [DeleteRowFault]));
      Sound(n, m', k, allow) && Busy(n, m', u, k, allow)
  {
  }

  lemma DeleteRowKeeps(s: Slice, m: Monitor, t: Thread, k: Keys, allow: bool, o: Outcome)
    requires Sound(s, m, k, allow) && Busy(s, m, t, k, allow) && t.pc.DRow? && o.Applies()
    ensures var n, m' := SliceStep(s, t, o), Observe(m, s, t, o);
      Sound(n.slice, m', k, allow) && Busy(n.slice, m', n.thread, k, allow)
  {
    DeleteRowStep(s, m, t, o);
    DeleteRowKept(s, m, t, k, allow, o);
  }

  lemma CreatedAuditStep(s: Slice, m: Monitor, t: Thread, o: Outcome)
    requires t.pc.CCreated?
    ensures SliceStep(s, t, o) == SliceProgress(
        s.(listed := s.listed || o.Applies()),
        t.(pc := Finished(Created(t.pc.row))))
    ensures Observe(m, s, t, o) == m.(gap := false, marks := m.marks + [Made], exact := m.exact && o.Done?)
  {
  }

  lemma CreatedAuditKept(s: Slice, m: Monitor, t: Thread, k: Keys, allow: bool, o: Outcome)
    requires Sound(s, m, k, allow) && Busy(s, m, t, k, allow) && t.pc.CCreated?
    ensures var n, m', u :=
        s.(listed := s.listed || o.Applies()),
        m.(gap := false, marks := m.marks + [Made], exact := m.exact && o.Done?),
        t.(pc := Finished(Created(t.pc.row)));
      Sound(n, m', k, allow) && Busy(n, m', u, k, allow)
  {
  }

  lemma CreatedAuditKeeps(s: Slice, m: Monitor, t: Thread, k: Keys, allow: bool, o: Outcome)
    requires Sound(s, m, k, allow) && Busy(s, m, t, k, allow) && t.pc.CCreated?
    ensures var n, m' := SliceStep(s, t, o), Observe(m, s, t, o);
      Sound(n.slice, m', k, allow) && Busy(n.slice, m', n.thread, k, allow)
  {
    CreatedAuditStep(s, m, t, o);
    CreatedAuditKept(s, m, t, k, allow, o);
  }

  lemma DeletedAuditStep(s: Slice, m: Monitor, t: Thread, o: Outcome)
    requires t.pc.DDeleted?
    ensures SliceStep(s, t, o) == SliceProgress(s.(listed := s.listed && !o.Applies()), t.(pc := Finished(Removed)))
    ensures Observe(m, s, t, o) == m.(gap := false, exact := m.exact && o.Done?)
  {
  }

  lemma DeletedAuditKept(s: Slice, m: Monitor, t: Thread, k: Keys, allow: bool, o: Outcome)
    requires Sound(s, m, k, allow) && Busy(s, m, t, k, allow) && t.pc.DDeleted?
    ensures var n, m', u :=
        s.(listed := s.listed && !o.Applies()),
        m.(gap := false, exact := m.exact && o.Done?),
        t.(pc := Finished(Removed));
      Sound(n, m', k, allow) && Busy(n, m', u, k, allow)
  {
  }

  lemma DeletedAuditKeeps(s: Slice, m: Monitor, t: Thread, k: Keys, allow: bool, o: Outcome)
    requires Sound(s, m, k, allow) && Busy(s, m, t, k, allow) && t.pc.DDeleted?
    ensures var n, m' := SliceStep(s, t, o), Observe(m, s, t, o);
      Sound(n.slice, m', k, allow) && Busy(n.slice, m', n.thread, k, allow)
  {
    DeletedAuditStep(s, m, t, o);
    DeletedAuditKept(s, m, t, k, allow, o);
  }

  lemma IdempotentAuditStep(s: Slice, m: Monitor, t: Thread, o: Outcome)
    requires t.pc.CIdempotent?
    ensures SliceStep(s, t, o) == SliceProgress(s, t.(pc := Finished(Idempotent(t.pc.row))))
    ensures Observe(m, s, t, o) == m.(exact := m.exact && o.Done?)
  {
  }

  lemma IdempotentAuditKeeps(s: Slice, m: Monitor, t: Thread, k: Keys, allow: bool, o: Outcome)
    requires Sound(s, m, k, allow) && Busy(s, m, t, k, allow) && t.pc.CIdempotent?
    ensures var n, m' := SliceStep(s, t, o), Observe(m, s, t, o);
      Sound(n.slice, m', k, allow) && Busy(n.slice, m', n.thread, k, allow)
  {
    IdempotentAuditStep(s, m, t, o);
    EndKeeps(s, m, m.(exact := m.exact && o.Done?), t, k, allow, Idempotent(t.pc.row));
  }

  lemma RotatedAuditKeeps(s: Slice, m: Monitor, t: Thread, k: Keys, allow: bool, o: Outcome)
    requires Sound(s, m, k, allow) && Busy(s, m, t, k, allow) && t.pc.RRotated?
    ensures var n, m' := SliceStep(s, t, o), Observe(m, s, t, o);
      Sound(n.slice, m', k, allow) && Busy(n.slice, m', n.thread, k, allow)
  {
    assert SliceStep(s, t, o).slice == s;
    SoundUnderMonitor(s, m, Observe(m, s, t, o), k, allow);
  }

  lemma CreateFailureAuditStep(s: Slice, m: Monitor, t: Thread, o: Outcome)
    requires t.pc.CFailed?
    ensures SliceStep(s, t, o) == SliceProgress(s, t.(pc := Finished(FailedWith(t.pc.fault))))
    ensures Observe(m, s, t, o) == m.(exact := m.exact && o.Done?, gap := false)
  {
  }

  lemma CreateFailureAuditKeeps(s: Slice, m: Monitor, t: Thread, k: Keys, allow: bool, o: Outcome)
    requires Sound(s, m, k, allow) && Busy(s, m, t, k, allow) && t.pc.CFailed?
    ensures var n, m' := SliceStep(s, t, o), Observe(m, s, t, o);
      Sound(n.slice, m', k, allow) && Busy(n.slice, m', n.thread, k, allow)
  {
    CreateFailureAuditStep(s, m, t, o);
    EndKeeps(s, m, m.(exact := m.exact && o.Done?, gap := false), t, k, allow, FailedWith(t.pc.fault));
  }

  lemma RotateFailureAuditStep(s: Slice, m: Monitor, t: Thread, o: Outcome)
    requires t.pc.RFailed?
    ensures SliceStep(s, t, o) == SliceProgress(s, t.(pc := Finished(FailedWith(t.pc.fault))))
    ensures Observe(m, s, t, o) == m.(exact := m.exact && o.Done?)
  {
  }

  lemma RotateFailureAuditKeeps(s: Slice, m: Monitor, t: Thread, k: Keys, allow: bool, o: Outcome)
    requires Sound(s, m, k, allow) && Busy(s, m, t, k, allow) && t.pc.RFailed?
    ensures var n, m' := SliceStep(s, t, o), Observe(m, s, t, o);
      Sound(n.slice, m', k, allow) && Busy(n.slice, m', n.thread, k, allow)
  {
    RotateFailureAuditStep(s, m, t, o);
    EndKeeps(s, m, m.(exact := m.exact && o.Done?), t, k, allow, FailedWith(t.pc.fault));
  }

  lemma RotateMissingAuditStep(s: Slice, m: Monitor, t: Thread, o: Outcome)
    requires t.pc.RMissing?
    ensures SliceStep(s, t, o) == SliceProgress(s, t.(pc := Finished(NotFound)))
    ensures Observe(m, s, t, o) == m.(exact := m.exact && o.Done?)
  {
  }

  lemma RotateMissingAuditKeeps(s: Slice, m: Monitor, t: Thread, k: Keys, allow: bool, o: Outcome)
    requires Sound(s, m, k, allow) && Busy(s, m, t, k, allow) && t.pc.RMissing?
    ensures var n, m' := SliceStep(s, t, o), Observe(m, s, t, o);
      Sound(n.slice, m', k, allow) && Busy(n.slice, m', n.thread, k, allow)
  {
    RotateMissingAuditStep(s, m, t, o);
    EndKeeps(s, m, m.(exact := m.exact && o.Done?), t, k, allow, NotFound);
  }

  lemma DeleteMissingAuditStep(s: Slice, m: Monitor, t: Thread, o: Outcome)
    requires t.pc.DMissing?
    ensures SliceStep(s, t, o) == SliceProgress(s, t.(pc := Finished(NotFound)))
    ensures Observe(m, s, t, o) == m.(exact := m.exact && o.Done?)
  {
  }

  lemma DeleteMissingAuditKeeps(s: Slice, m: Monitor, t: Thread, k: Keys, allow: bool, o: Outcome)
    requires Sound(s, m, k, allow) && Busy(s, m, t, k, allow) && t.pc.DMissing?
    ensures var n, m' := SliceStep(s, t, o), Observe(m, s, t, o);
      Sound(n.slice, m', k, allow) && Busy(n.slice, m', n.thread, k, allow)
  {
    DeleteMissingAuditStep(s, m, t, o);
    EndKeeps(s, m, m.(exact := m.exact && o.Done?), t, k, allow, NotFound);
  }

  lemma PartialAuditStep(s: Slice, m: Monitor, t: Thread, o: Outcome)
    requires t.pc.DPartial?
    ensures SliceStep(s, t, o) == SliceProgress(s, t.(pc := Finished(PartialFailure(t.pc.partial))))
    ensures Observe(m, s, t, o) == m.(exact := m.exact && o.Done?, gap := false)
  {
  }

  lemma PartialAuditKeeps(s: Slice, m: Monitor, t: Thread, k: Keys, allow: bool, o: Outcome)
    requires Sound(s, m, k, allow) && Busy(s, m, t, k, allow) && t.pc.DPartial?
    ensures var n, m' := SliceStep(s, t, o), Observe(m, s, t, o);
      Sound(n.slice, m', k, allow) && Busy(n.slice, m', n.thread, k, allow)
  {
    PartialAuditStep(s, m, t, o);
    EndKeeps(s, m, m.(exact := m.exact && o.Done?, gap := false), t, k, allow, PartialFailure(t.pc.partial));
  }

  /** Every statement of every call keeps the invariant, whatever its outcome. */
  lemma StepKeeps(s: Slice, m: Monitor, t: Thread, k: Keys, allow: bool, o: Outcome)
    requires Sound(s, m, k, allow) && Busy(s, m, t, k, allow) && Active(t)
    ensures var n, m' := SliceStep(s, t, o), Observe(m, s, t, o);
      Sound(n.slice, m', k, allow) && Busy(n.slice, m', n.thread, k, allow)
  {
    match t.call.op
    case CreateOp => CreateStepKeeps(s, m, t, k, allow, o);
    case RotateOp => RotateStepKeeps(s, m, t, k, allow, o);
    case DeleteOp => DeleteStepKeeps(s, m, t, k, allow, o);
  }

  lemma CreateStepKeeps(s: Slice, m: Monitor, t: Thread, k: Keys, allow: bool, o: Outcome)
    requires Sound(s, m, k, allow) && Busy(s, m, t, k, allow) && Active(t) && t.call.op.CreateOp?
    ensures var n, m' := SliceStep(s, t, o), Observe(m, s, t, o);
      Sound(n.slice, m', k, allow) && Busy(n.slice, m', n.thread, k, allow)
  {
    match t.pc
    case CLookup => CreateLookupKeeps(s, m, t, k, allow, o);
    case CIdempotent(_) => IdempotentAuditKeeps(s, m, t, k, allow, o);
    case CInsert => InsertKeeps(s, m, t, k, allow, o);
    case CDraw => CreateDrawKeeps(s, m, t, k, allow, o);
    case CDatabase => CreateDatabaseKeeps(s, m, t, k, allow, o);
    case CUser(_) => CreateUserKeeps(s, m, t, k, allow, o);
    case CGrant(_) => GrantKeeps(s, m, t, k, allow, o);
    case CFlush => FlushKeeps(s, m, t, k, allow, o);
    case CSecret => CreateSecretKeeps(s, m, t, k, allow, o);
    case CReady => ReadyKeeps(s, m, t, k, allow, o);
    case CFinal => CreateFinalKeeps(s, m, t, k, allow, o);
    case CCreated(_) => CreatedAuditKeeps(s, m, t, k, allow, o);
    case CUndoUser(_) => UndoUserKeeps(s, m, t, k, allow, o);
    case CUndoDatabase(_) => UndoDatabaseKeeps(s, m, t, k, allow, o);
    case CMark(_) => MarkKeeps(s, m, t, k, allow, o);
    case CFailed(_) => CreateFailureAuditKeeps(s, m, t, k, allow, o);
  }

  lemma RotateStepKeeps(s: Slice, m: Monitor, t: Thread, k: Keys, allow: bool, o: Outcome)
    requires Sound(s, m, k, allow) && Busy(s, m, t, k, allow) && Active(t) && t.call.op.RotateOp?
    ensures var n, m' := SliceStep(s, t, o), Observe(m, s, t, o);
      Sound(n.slice, m', k, allow) && Busy(n.slice, m', n.thread, k, allow)
  {
    match t.pc
    case RLookup => RotateLookupKeeps(s, m, t, k, allow, o);
    case RMissing => RotateMissingAuditKeeps(s, m, t, k, allow, o);
    case RDraw => RotateDrawKeeps(s, m, t, k, allow, o);
    case RAlter(h) =>
      if s.At(h).None? || !o.Applies() {
        AlterRefusedKeeps(s, m, t, k, allow, o);
      } else if h.Loopback? {
        AlterLoopbackKeeps(s, m, t, k, allow, o);
      } else {
        AlterLocalhostKeeps(s, m, t, k, allow, o);
      }
    case RSecret => RotateSecretKeeps(s, m, t, k, allow, o);
    case RRotated => RotatedAuditKeeps(s, m, t, k, allow, o);
    case RFinal => RotateFinalKeeps(s, m, t, k, allow, o);
    case RFailed(_) => RotateFailureAuditKeeps(s, m, t, k, allow, o);
  }

  lemma DeleteStepKeeps(s: Slice, m: Monitor, t: Thread, k: Keys, allow: bool, o: Outcome)
    requires Sound(s, m, k, allow) && Busy(s, m, t, k, allow) && Active(t) && t.call.op.DeleteOp?
    ensures var n, m' := SliceStep(s, t, o), Observe(m, s, t, o);
      Sound(n.slice, m', k, allow) && Busy(n.slice, m', n.thread, k, allow)
  {
    match t.pc
    case DLookup =>
      if o.Done? && s.row.Some? {
        DeleteFindsKeeps(s, m, t, k, allow, o);
      } else {
        DeleteMissesKeeps(s, m, t, k, allow, o);
      }
    case DMissing => DeleteMissingAuditKeeps(s, m, t, k, allow, o);
    case DDatabase => DropDatabaseKeeps(s, m, t, k, allow, o);
    case DUser(_, _) => DropUserKeeps(s, m, t, k, allow, o);
    case DSecret(_) => RemoveSecretKeeps(s, m, t, k, allow, o);
    case DRow(_) =>
      if o.Applies() {
        DeleteRowKeeps(s, m, t, k, allow, o);
      } else {
        DeleteRowRefusedKeeps(s, m, t, k, allow, o);
      }
    case DDeleted => DeletedAuditKeeps(s, m, t, k, allow, o);
    case DPartial(_) => PartialAuditKeeps(s, m, t, k, allow, o);
  }

  lemma CrashKeepsSound(s: Slice, m: Monitor, k: Keys, allow: bool)
    requires Sound(s, m, k, allow)
    ensures Sound(s, Crashed(m), k, allow)
  {
  }

  // ---------------------------------------------------------------- status changes

  /** The only changes a project row can see, by the kind of call that makes them. */
  predicate RowMoves(before: Option<Row>, after: Option<Row>, op: Operation) {
    || before == after
    || (op.CreateOp? && before.None? && after.Some? && after.value.status.Pending?)
    || (op.CreateOp? && before.Some? && after.Some? && before.value.status.Pending?
        && (after.value.status.Ready? || after.value.status.Error?)
        && after.value.database == before.value.database && after.value.user == before.value.user)
    || (op.DeleteOp? && before.Some? && after.None?)
  }

  /** Stored statuses move absent to pending, pending to ready or error, and to absent; a Rotate moves none. */
  lemma StatementMovesRow(s: Slice, t: Thread, k: Keys, o: Outcome)
    requires Positioned(s, t, k) && Active(t)
    ensures RowMoves(s.row, SliceStep(s, t, o).slice.row, t.call.op)
  {
    if OnRow(ActionOf(t)) {
      match t.call.op
      case CreateOp => assert t.pc.CInsert? || t.pc.CReady? || t.pc.CMark? || t.pc.CLookup? || t.pc.CFinal?;
      case RotateOp => assert t.pc.RLookup? || t.pc.RFinal?;
      case DeleteOp => assert t.pc.DLookup? || t.pc.DRow?;
    } else {
      OnlyRowStatementsMoveRow(s, ActionOf(t), o);
    }
  }

  lemma OnlyRowStatementsMoveRow(s: Slice, a: Action, o: Outcome)
    requires !OnRow(a)
    ensures PerformOnSlice(s, a, o).slice.row == s.row
  {
  }
}

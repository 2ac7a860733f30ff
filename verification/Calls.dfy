/**
 Create, Rotate and Delete inside their critical section, as programs over the
 statements of `Stores`: a program counter picks the next statement, its reply
 picks the next program counter. Each host of a two-host loop is one statement.
 */
module Calls {
  import opened Names
  import opened EnvFile
  import opened Stores

  /**
   A call that has passed the checks made before any lock. `password` is what
   its draw returns, `allowDrop` the service's setting; a Delete uses neither.
   */
  datatype Call = Call(op: Operation, name: string, password: string, allowDrop: bool)

  datatype CallResult =
    | Created(row: Row)
    | Idempotent(row: Row)
    | Refused(status: Status)
    | AlreadyExists
    | NotFound
    | Rotated(row: Row)
    | Removed
    | PartialFailure(faults: seq<Fault>)
    | FailedWith(fault: Fault)

  datatype Pc =
    // Create
    | CLookup
    | CIdempotent(row: Row)
    | CInsert
    | CConflictLookup
    | CConflict(row: Row)
    | CDraw
    | CDatabase
    | CUser(host: Host)
    | CGrant(host: Host)
    | CFlush
    | CSecret
    | CReady
    | CFinal
    | CCreated(row: Row)
    | CUndoUser(host: Host)
    | CUndoDatabase(fault: Fault)
    | CMark(fault: Fault)
    | CFailed(fault: Fault)
    // Rotate
    | RLookup
    | RMissing
    | RDraw
    | RAlter(host: Host)
    | RSecret
    | RRotated
    | RFinal
    | RFailed(fault: Fault)
    // Delete; `partial` collects what went wrong so far
    | DLookup
    | DMissing
    | DDatabase
    | DUser(host: Host, partial: seq<Fault>)
    | DSecret(partial: seq<Fault>)
    | DRow(partial: seq<Fault>)
    | DDeleted
    | DPartial(partial: seq<Fault>)
    | Finished(result: CallResult)

  /** A call with its local variables: the identifiers it works with and where it is. */
  datatype Thread = Thread(call: Call, db: string, user: string, pc: Pc)

  function KeysOf(name: string): Keys {
    Keys(name, DatabaseName(name), UserName(name))
  }

  /** A call at the start of its critical section. */
  function Start(call: Call): Thread {
    match call.op
    case CreateOp => Thread(call, DatabaseName(call.name), UserName(call.name), CLookup)
    case RotateOp => Thread(call, "", "", RLookup)
    case DeleteOp => Thread(call, "", "", DLookup)
  }

  function Privileges(allowDrop: bool): set<Privilege> {
    {SELECT, INSERT, UPDATE, DELETE, CREATE, ALTER, INDEX, REFERENCES} + (if allowDrop then {DROP} else {})
  }

  /** Every privilege there is, but DROP only when allowed. */
  lemma PrivilegesGranted(allowDrop: bool, p: Privilege)
    ensures p in Privileges(allowDrop) <==> (p.DROP? ==> allowDrop)
  {
    match p
    case SELECT =>
    case INSERT =>
    case UPDATE =>
    case DELETE =>
    case CREATE =>
    case ALTER =>
    case INDEX =>
    case REFERENCES =>
    case DROP =>
  }

  lemma GrantSetIs(db: string, allowDrop: bool)
    ensures forall g :: g in GrantSet(db, Privileges(allowDrop)) <==> g.0 == db && (g.1.DROP? ==> allowDrop)
  {
    forall g ensures g in GrantSet(db, Privileges(allowDrop)) <==> g.0 == db && (g.1.DROP? ==> allowDrop) {
      PrivilegesGranted(allowDrop, g.1);
    }
  }

  predicate Active(t: Thread) {
    !t.pc.Finished?
  }

  function ActionOf(t: Thread): Action
    requires Active(t)
  {
    var n := t.call.name;
    match t.pc
    case CLookup => GetProject(n)
    case CIdempotent(_) => WriteAudit(Record(CreateOp, n, true, IdempotentMsg))
    case CInsert => CreateProject(n, Row(t.db, t.user, Pending, NoFault))
    case CConflictLookup => GetProject(n)
    case CConflict(_) => WriteAudit(Record(CreateOp, n, true, IdempotentMsg))
    case CDraw => DrawPassword
    case CDatabase => CreateDatabase(t.db)
    case CUser(h) => CreateUser(t.user, h, t.call.password)
    case CGrant(h) => GrantOn(t.db, t.user, h, Privileges(t.call.allowDrop))
    case CFlush => FlushPrivileges
    case CSecret => WriteSecret(Secret(n, t.db, t.user, t.call.password))
    case CReady => UpdateProjectStatus(n, Ready, NoFault)
    case CFinal => GetProject(n)
    case CCreated(_) => WriteAudit(Record(CreateOp, n, true, CreatedMsg))
    case CUndoUser(h) => DropUser(t.user, h)
    case CUndoDatabase(_) => DropDatabase(t.db)
    case CMark(f) => UpdateProjectStatus(n, Error, f)
    case CFailed(f) => WriteAudit(Record(CreateOp, n, false, FaultMsg(f)))
    case RLookup => GetProject(n)
    case RMissing => WriteAudit(Record(RotateOp, n, false, FaultMsg(MissingFault)))
    case RDraw => DrawPassword
    case RAlter(h) => AlterUser(t.user, h, t.call.password)
    case RSecret => WriteSecret(Secret(n, t.db, t.user, t.call.password))
    case RRotated => WriteAudit(Record(RotateOp, n, true, RotatedMsg))
    case RFinal => GetProject(n)
    case RFailed(f) => WriteAudit(Record(RotateOp, n, false, FaultMsg(f)))
    case DLookup => GetProject(n)
    case DMissing => WriteAudit(Record(DeleteOp, n, false, FaultMsg(MissingFault)))
    case DDatabase => DropDatabase(t.db)
    case DUser(h, _) => DropUser(t.user, h)
    case DSecret(_) => RemoveSecret(n)
    case DRow(_) => DeleteProject(n)
    case DDeleted => WriteAudit(Record(DeleteOp, n, true, DeletedMsg))
    case DPartial(p) => WriteAudit(Record(DeleteOp, n, false, PartialMsg(p)))
  }

  /** The list of failures after one more drop. */
  function Noting(partial: seq<Fault>, r: Reply, f: Fault): seq<Fault> {
    if r.Err? then partial + [f] else partial
  }

  /** The program counter after the reply. */
  function NextPc(t: Thread, r: Reply): Pc
    requires Active(t)
  {
    match t.pc
    case CLookup =>
      if r.Found? then (if r.row.status.Ready? then CIdempotent(r.row) else Finished(Refused(r.row.status)))
      else if r.Missing? then CInsert
      else Finished(FailedWith(LookupFault))
    case CIdempotent(row) => Finished(Idempotent(row))
    case CInsert => if r.Ok? then CDraw else if r.Conflict? then CConflictLookup else CFailed(InsertFault)
    case CConflictLookup => if r.Found? then CConflict(r.row) else Finished(AlreadyExists)
    case CConflict(row) => Finished(Idempotent(row))
    case CDraw => if r.Ok? then CDatabase else CMark(DrawFault)
    case CDatabase => if r.Ok? then CUser(Loopback) else CMark(DatabaseFault)
    case CUser(h) =>
      if !r.Ok? then CUndoDatabase(UserFault)
      else if h.Loopback? then CUser(Localhost) else CGrant(Loopback)
    case CGrant(h) =>
      if !r.Ok? then CUndoUser(Loopback)
      else if h.Loopback? then CGrant(Localhost) else CFlush
    case CFlush => if r.Ok? then CSecret else CUndoUser(Loopback)
    case CSecret => if r.Ok? then CReady else CMark(SecretFault)
    case CReady => if r.Ok? then CFinal else CFailed(StatusFault)
    case CFinal => if r.Found? then CCreated(r.row) else CFailed(FinalFault)
    case CCreated(row) => Finished(Created(row))
    case CUndoUser(h) => if r.Ok? && h.Loopback? then CUndoUser(Localhost) else CUndoDatabase(GrantFault)
    case CUndoDatabase(f) => CMark(f)
    case CMark(f) => if f.DrawFault? then Finished(FailedWith(f)) else CFailed(f)
    case CFailed(f) => Finished(FailedWith(f))
    case RLookup =>
      if r.Found? then RDraw else if r.Missing? then RMissing else Finished(FailedWith(LookupFault))
    case RMissing => Finished(NotFound)
    case RDraw => if r.Ok? then RAlter(Loopback) else Finished(FailedWith(DrawFault))
    case RAlter(h) =>
      if !r.Ok? then RFailed(AlterFault)
      else if h.Loopback? then RAlter(Localhost) else RSecret
    case RSecret => if r.Ok? then RRotated else RFailed(SecretFault)
    case RRotated => RFinal
    case RFinal =>
      if r.Found? then Finished(Rotated(r.row))
      else if r.Missing? then Finished(NotFound)
      else Finished(FailedWith(LookupFault))
    case RFailed(f) => Finished(FailedWith(f))
    case DLookup =>
      if r.Found? then DDatabase else if r.Missing? then DMissing else Finished(FailedWith(LookupFault))
    case DMissing => Finished(NotFound)
    case DDatabase => DUser(Loopback, Noting([], r, DropDatabaseFault))
    case DUser(h, p) =>
      if r.Ok? && h.Loopback? then DUser(Localhost, p) else DSecret(Noting(p, r, DropUserFault))
    case DSecret(p) => DRow(Noting(p, r, RemoveSecretFault))
    case DRow(p) =>
      var q := Noting(p, r, DeleteRowFault);
      if q == [] then DDeleted else DPartial(q)
    case DDeleted => Finished(Removed)
    case DPartial(p) => Finished(PartialFailure(p))
  }

  /** The thread after the reply; Rotate and Delete take their identifiers from the row they find. */
  function Resume(t: Thread, r: Reply): Thread
    requires Active(t)
  {
    var pc := NextPc(t, r);
    if (t.pc.RLookup? || t.pc.DLookup?) && r.Found? then Thread(t.call, r.row.database, r.row.user, pc)
    else t.(pc := pc)
  }

  // ---------------------------------------------------------------- runs of one call

  /** The stores, the call and what it has logged so far. */
  datatype Progress = Progress(stores: Stores, thread: Thread, log: seq<Record>)

  function Step(p: Progress, o: Outcome): Progress
    requires Active(p.thread)
  {
    var a := ActionOf(p.thread);
    var e := Perform(p.stores, a, o);
    Progress(e.stores, Resume(p.thread, e.reply), p.log + Emitted(a, o))
  }

  /** The call run alone, with the given outcome for each of its statements in turn. */
  function RunCall(s: Stores, call: Call, os: seq<Outcome>): Progress {
    if os == [] then Progress(s, Start(call), [])
    else
      var p := RunCall(s, call, os[..|os| - 1]);
      if Active(p.thread) then Step(p, os[|os| - 1]) else p
  }

  lemma RunCallSnoc(s: Stores, call: Call, os: seq<Outcome>, o: Outcome)
    ensures var p := RunCall(s, call, os);
      RunCall(s, call, os + [o]) == if Active(p.thread) then Step(p, o) else p
  {
    assert (os + [o])[..|os|] == os;
  }

  lemma {:induction false} RunCallKeepsCall(s: Stores, call: Call, os: seq<Outcome>)
    ensures RunCall(s, call, os).thread.call == call
  {
    if os != [] {
      RunCallKeepsCall(s, call, os[..|os| - 1]);
    }
  }

  /** An upper bound on the statements a call can still make. */
  function Rank(pc: Pc): nat {
    match pc
    case Finished(_) => 0
    case CLookup => 14
    case CInsert => 13
    case CDraw => 12
    case CDatabase => 11
    case CUser(h) => if h.Loopback? then 10 else 9
    case CGrant(h) => if h.Loopback? then 8 else 7
    case CFlush => 6
    case CUndoUser(h) => if h.Loopback? then 5 else 4
    case CUndoDatabase(_) => 3
    case CSecret => 4
    case CReady => 3
    case CFinal => 2
    case CMark(_) => 2
    case CConflictLookup => 2
    case RLookup => 7
    case RDraw => 6
    case RAlter(h) => if h.Loopback? then 5 else 4
    case RSecret => 3
    case RRotated => 2
    case DLookup => 7
    case DDatabase => 6
    case DUser(h, _) => if h.Loopback? then 5 else 4
    case DSecret(_) => 3
    case DRow(_) => 2
    case _ => 1
  }

  lemma NextPcLowersRank(t: Thread, r: Reply)
    requires Active(t)
    ensures Rank(NextPc(t, r)) < Rank(t.pc)
  {
  }

  /** No call makes more than fourteen statements, whatever the outcomes. */
  lemma {:induction false} CallsEnd(s: Stores, call: Call, os: seq<Outcome>)
    ensures Rank(RunCall(s, call, os).thread.pc) + |os| <= 14 || !Active(RunCall(s, call, os).thread)
  {
    if os != [] {
      var p := RunCall(s, call, os[..|os| - 1]);
      CallsEnd(s, call, os[..|os| - 1]);
      if Active(p.thread) {
        NextPcLowersRank(p.thread, Perform(p.stores, ActionOf(p.thread), os[|os| - 1]).reply);
      }
    }
  }
}

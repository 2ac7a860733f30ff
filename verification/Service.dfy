/**
 The provisioning service as the object it is: its collaborators are changed in
 place, statement by statement, and every call ends in the state, the log and
 the answer that the program of `Calls` gives for the outcomes it met.
 */
module Provision {
  import opened Common
  import opened Names
  import opened SqlText
  import opened EnvFile
  import opened Stores
  import opened Calls
  import opened Lifecycle
  import opened Serial
  import opened System
  import opened Passwords
  import opened Journals
  import opened Database
  import opened MySql
  import Volume

  // ---------------------------------------------------------------- following a call

  /** A call's specification run: where it started, what the journal held then, and the outcomes met so far. */
  datatype Run = Run(start: Stores, audit: seq<Record>, past: seq<Outcome>, call: Call, os: seq<Outcome>)
  {
    function Then(o: Outcome): (r: Run)
      ensures r.past + r.os == past + os + [o]
    {
      this.(os := os + [o])
    }

    predicate ContinuedBy(next: Run) {
      next.call == call && StartsLike(next)
    }

    predicate StartsLike(next: Run) {
      next.start == start && next.audit == audit && next.past == past
    }
  }

  /** The specification run has reached this thread, these stores and this log. */
  predicate Follows(run: Run, t: Thread, s: Stores, audit: seq<Record>) {
    var p := RunCall(run.start, run.call, run.os);
    p.stores == s && p.thread == t && audit == run.audit + p.log
  }

  lemma FollowNothing(run: Run)
    requires run.os == []
    ensures Follows(run, Start(run.call), run.start, run.audit) && run.past + run.os == run.past
  {
  }

  lemma Follow(run: Run, t: Thread, s: Stores, audit: seq<Record>, o: Outcome)
    requires Follows(run, t, s, audit) && Active(t)
    ensures var e := Perform(s, ActionOf(t), o);
      Follows(run.Then(o), Resume(t, e.reply), e.stores, audit + Emitted(ActionOf(t), o))
  {
    RunCallSnoc(run.start, run.call, run.os, o);
  }

  /** A call and the identifiers it works with: a Create derives them, a Rotate or Delete reads them from the row. */
  datatype Work = Work(call: Call, db: string, user: string)
  {
    function With(password: string): Work {
      this.(call := call.(password := password))
    }
  }

  function CreateWork(name: string, password: string, allow: bool): Work {
    Work(Call(CreateOp, name, password, allow), DatabaseName(name), UserName(name))
  }

  /** The thread of a call past its lookup. */
  function InCall(w: Work, pc: Pc): Thread {
    Thread(w.call, w.db, w.user, pc)
  }

  /** At this point the call makes the statement and goes on to `yes` after a success and to `no` after an error. */
  predicate Branches(w: Work, pc: Pc, a: Action, yes: Pc, no: Pc) {
    var t := InCall(w, pc);
    Active(t) && !pc.RLookup? && !pc.DLookup? && ActionOf(t) == a && NextPc(t, Ok) == yes && NextPc(t, Err) == no
  }

  lemma ResumeInCall(w: Work, pc: Pc, r: Reply)
    requires Active(InCall(w, pc)) && !pc.RLookup? && !pc.DLookup?
    ensures Resume(InCall(w, pc), r) == InCall(w, NextPc(InCall(w, pc), r))
  {
  }

  /** A statement that is not an audit record, with its reply. */
  lemma FollowBranch(run: Run, w: Work, pc: Pc, a: Action, s: Stores, audit: seq<Record>, o: Outcome, yes: Pc, no: Pc)
    requires Follows(run, InCall(w, pc), s, audit) && Branches(w, pc, a, yes, no) && !a.WriteAudit?
    requires var r := Perform(s, a, o).reply; r.Ok? || r.Err?
    ensures var e := Perform(s, a, o);
      Follows(run.Then(o), InCall(w, if e.reply.Ok? then yes else no), e.stores, audit)
  {
    Follow(run, InCall(w, pc), s, audit, o);
    ResumeInCall(w, pc, Perform(s, a, o).reply);
    assert audit + [] == audit;
  }

  lemma RowFollowed(run: Run, w: Work, pc: Pc, a: Action, s: Stores, audit: seq<Record>, o: Outcome, yes: Pc, no: Pc)
    requires Follows(run, InCall(w, pc), s, audit) && Branches(w, pc, a, yes, no)
    requires a.UpdateProjectStatus? || a.DeleteProject?
    ensures var e := RowStep(Lookup(s.rows, a.name), a, o);
      Follows(run.Then(o), InCall(w, if e.reply.Ok? then yes else no), s.(rows := Assign(s.rows, a.name, e.cell)), audit)
  {
    FollowBranch(run, w, pc, a, s, audit, o, yes, no);
  }

  /** An audit record, after which the call goes on alike. */
  lemma FollowRecord(run: Run, w: Work, pc: Pc, record: Record, s: Stores, audit: seq<Record>, o: Outcome, after: Pc)
    requires Follows(run, InCall(w, pc), s, audit) && Branches(w, pc, WriteAudit(record), after, after)
    ensures Follows(run.Then(o), InCall(w, after), s, audit + Emitted(WriteAudit(record), o))
  {
    Follow(run, InCall(w, pc), s, audit, o);
    ResumeInCall(w, pc, ReplyTo(o));
  }

  // The branches of the programs, one lemma for each.

  lemma FailureRecords(t: Thread, f: Fault, r: Reply)
    requires t.pc == CFailed(f) || t.pc == RFailed(f)
    ensures ActionOf(t) == WriteAudit(Record(if t.pc.CFailed? then CreateOp else RotateOp, t.call.name, false, FaultMsg(f)))
    ensures NextPc(t, r) == Finished(FailedWith(f))
  {
  }

  lemma Marks(t: Thread, f: Fault, r: Reply)
    requires t.pc == CMark(f)
    ensures ActionOf(t) == Action.UpdateProjectStatus(t.call.name, Error, f)
    ensures NextPc(t, r) == if f.DrawFault? then Finished(FailedWith(f)) else CFailed(f)
  {
  }

  lemma MarkBranch(w: Work, f: Fault)
    ensures Branches(w, CMark(f), Action.UpdateProjectStatus(w.call.name, Error, f),
                     if f.DrawFault? then Finished(FailedWith(f)) else CFailed(f),
                     if f.DrawFault? then Finished(FailedWith(f)) else CFailed(f))
  {
    Marks(InCall(w, CMark(f)), f, Ok);
    Marks(InCall(w, CMark(f)), f, Err);
  }

  lemma ReadyBranch(w: Work)
    ensures Branches(w, CReady, Action.UpdateProjectStatus(w.call.name, Ready, NoFault), CFinal, CFailed(StatusFault))
  {
  }

  lemma DatabaseBranch(w: Work)
    ensures Branches(w, CDatabase, CreateDatabase(w.db), CUser(Loopback), CMark(DatabaseFault))
  {
  }

  lemma UndoBranch(w: Work, f: Fault)
    ensures Branches(w, CUndoDatabase(f), Action.DropDatabase(w.db), CMark(f), CMark(f))
  {
  }

  function SecretFor(w: Work): Secret {
    Secret(w.call.name, w.db, w.user, w.call.password)
  }

  lemma CreateSecretBranch(w: Work)
    ensures Branches(w, CSecret, Action.WriteSecret(SecretFor(w)), CReady, CMark(SecretFault))
  {
  }

  lemma RotateSecretBranch(w: Work)
    ensures Branches(w, RSecret, Action.WriteSecret(SecretFor(w)), RRotated, RFailed(SecretFault))
  {
  }

  lemma DropBranch(w: Work)
    ensures Branches(w, DDatabase, Action.DropDatabase(w.db),
                     DUser(Loopback, []), DUser(Loopback, [] + [DropDatabaseFault]))
  {
  }

  lemma SecretBranch(w: Work, partial: seq<Fault>)
    ensures Branches(w, DSecret(partial), Action.RemoveSecret(w.call.name),
                     DRow(partial), DRow(partial + [RemoveSecretFault]))
  {
  }

  lemma RowBranch(w: Work, partial: seq<Fault>)
    ensures Branches(w, DRow(partial), Action.DeleteProject(w.call.name),
                     if partial == [] then DDeleted else DPartial(partial), DPartial(partial + [DeleteRowFault]))
  {
  }

  lemma CreateFailureRecord(w: Work, f: Fault)
    ensures Branches(w, CFailed(f), WriteAudit(Record(CreateOp, w.call.name, false, FaultMsg(f))),
                     Finished(FailedWith(f)), Finished(FailedWith(f)))
  {
    FailureRecords(InCall(w, CFailed(f)), f, Ok);
    FailureRecords(InCall(w, CFailed(f)), f, Err);
  }

  lemma CreatedRecord(w: Work, row: Row)
    ensures Branches(w, CCreated(row), WriteAudit(Record(CreateOp, w.call.name, true, CreatedMsg)),
                     Finished(Created(row)), Finished(Created(row)))
  {
  }

  lemma IdempotentRecord(w: Work, row: Row)
    ensures Branches(w, CIdempotent(row), WriteAudit(Record(CreateOp, w.call.name, true, IdempotentMsg)),
                     Finished(Idempotent(row)), Finished(Idempotent(row)))
  {
  }

  lemma ConflictRecord(w: Work, row: Row)
    ensures Branches(w, CConflict(row), WriteAudit(Record(CreateOp, w.call.name, true, IdempotentMsg)),
                     Finished(Idempotent(row)), Finished(Idempotent(row)))
  {
  }

  lemma RotateFailureRecord(w: Work, f: Fault)
    ensures Branches(w, RFailed(f), WriteAudit(Record(RotateOp, w.call.name, false, FaultMsg(f))),
                     Finished(FailedWith(f)), Finished(FailedWith(f)))
  {
    FailureRecords(InCall(w, RFailed(f)), f, Ok);
    FailureRecords(InCall(w, RFailed(f)), f, Err);
  }

  lemma RotatedRecord(w: Work)
    ensures Branches(w, RRotated, WriteAudit(Record(RotateOp, w.call.name, true, RotatedMsg)), RFinal, RFinal)
  {
  }

  lemma RotatedReadBack(w: Work, r: Reply)
    ensures Resume(InCall(w, RFinal), r) ==
      InCall(w, Finished(if r.Found? then Rotated(r.row) else if r.Missing? then NotFound else FailedWith(LookupFault)))
  {
  }

  lemma DeletedRecord(w: Work)
    ensures Branches(w, DDeleted, WriteAudit(Record(DeleteOp, w.call.name, true, DeletedMsg)),
                     Finished(Removed), Finished(Removed))
  {
  }

  lemma PartialRecord(w: Work, partial: seq<Fault>)
    ensures Branches(w, DPartial(partial), WriteAudit(Record(DeleteOp, w.call.name, false, PartialMsg(partial))),
                     Finished(PartialFailure(partial)), Finished(PartialFailure(partial)))
  {
  }

  /** A Rotate or Delete whose lookup found nothing. */
  function Missed(call: Call): Thread {
    Thread(call, "", "", if call.op.RotateOp? then RMissing else DMissing)
  }

  lemma MissedRotate(t: Thread)
    requires t.pc.RMissing?
    ensures ActionOf(t) == WriteAudit(Record(RotateOp, t.call.name, false, FaultMsg(MissingFault)))
    ensures forall r :: Resume(t, r) == t.(pc := Finished(NotFound))
  {
  }

  lemma MissedDelete(t: Thread)
    requires t.pc.DMissing?
    ensures ActionOf(t) == WriteAudit(Record(DeleteOp, t.call.name, false, FaultMsg(MissingFault)))
    ensures forall r :: Resume(t, r) == t.(pc := Finished(NotFound))
  {
  }

  lemma FollowMissing(run: Run, call: Call, s: Stores, audit: seq<Record>, o: Outcome)
    requires Follows(run, Missed(call), s, audit) && (call.op.RotateOp? || call.op.DeleteOp?)
    ensures Follows(run.Then(o), Thread(call, "", "", Finished(NotFound)), s,
                    audit + Emitted(WriteAudit(Record(call.op, call.name, false, FaultMsg(MissingFault))), o))
  {
    if call.op.RotateOp? {
      MissedRotate(Missed(call));
    } else {
      MissedDelete(Missed(call));
    }
    Follow(run, Missed(call), s, audit, o);
  }

  /** A server statement sees and changes only the server's part of the state. */
  lemma ServerPart(s: Stores, a: Action, o: Outcome)
    requires OnServer(a)
    ensures var e := Perform(Stores(map[], s.dbs, s.accounts, map[]), a, o);
      Perform(s, a, o) == Effect(s.(dbs := e.stores.dbs, accounts := e.stores.accounts), e.reply)
  {
  }

  lemma BothServerPart(s: Stores, first: Action, second: Action, o: Outcome, q: Outcome)
    requires OnServer(first) && OnServer(second)
    ensures var e := BothHosts(Stores(map[], s.dbs, s.accounts, map[]), first, second, o, q);
      BothHosts(s, first, second, o, q) == Effect(s.(dbs := e.stores.dbs, accounts := e.stores.accounts), e.reply)
  {
    ServerPart(s, first, o);
    ServerPart(Perform(s, first, o).stores, second, q);
  }

  lemma SecretWritten(s: Stores, secret: Secret, ok: bool)
    requires ok ==> Accepts(secret)
    ensures Perform(s, Action.WriteSecret(secret), if ok then Done else Failed(false)) ==
      Effect(s.(files := if ok then s.files[secret.name := secret] else s.files), if ok then Ok else Err)
  {
    assert Assign(s.files, secret.name, Lookup(s.files, secret.name)) == s.files;
  }

  lemma SecretFollowed(run: Run, w: Work, pc: Pc, s: Stores, audit: seq<Record>, secret: Secret, ok: bool, yes: Pc, no: Pc)
    requires Follows(run, InCall(w, pc), s, audit) && Branches(w, pc, Action.WriteSecret(secret), yes, no)
    requires ok ==> Accepts(secret)
    ensures Follows(run.Then(if ok then Done else Failed(false)), InCall(w, if ok then yes else no),
                    s.(files := if ok then s.files[secret.name := secret] else s.files), audit)
  {
    SecretWritten(s, secret, ok);
    FollowBranch(run, w, pc, Action.WriteSecret(secret), s, audit, if ok then Done else Failed(false), yes, no);
  }

  lemma SecretRemoved(s: Stores, name: string, o: Outcome)
    ensures Perform(s, Action.RemoveSecret(name), o) ==
      Effect(s.(files := if o.Applies() then s.files - {name} else s.files), ReplyTo(o))
  {
    assert Assign(s.files, name, Lookup(s.files, name)) == s.files;
  }

  /** The two statements of a host loop; the second happens only after a success. */
  function ThenBoth(run: Run, s: Stores, first: Action, o: Outcome, q: Outcome): (r: Run)
    ensures r.past + r.os == run.past + run.os + Met(s, first, o, q)
  {
    if Perform(s, first, o).reply.Ok? then run.Then(o).Then(q) else run.Then(o)
  }

  lemma AccountReply(s: Stores, a: Action, o: Outcome)
    requires OnAccount(a)
    ensures var r := Perform(s, a, o).reply; (r == Ok || r == Err) && !a.WriteAudit? && OnServer(a)
  {
  }

  /** A loop over the two hosts: on to `yes` after two successes, to `no` after the first error. */
  lemma BothFollowed(run: Run, w: Work, s: Stores, audit: seq<Record>, pc: Pc, mid: Pc, first: Action, second: Action,
                     yes: Pc, no: Pc, o: Outcome, q: Outcome)
    requires Follows(run, InCall(w, pc), s, audit) && OnAccount(first) && OnAccount(second)
    requires Branches(w, pc, first, mid, no) && Branches(w, mid, second, yes, no)
    ensures var e := BothHosts(s, first, second, o, q);
      Follows(ThenBoth(run, s, first, o, q), InCall(w, if e.reply.Ok? then yes else no), e.stores, audit)
  {
    var e := Perform(s, first, o);
    AccountReply(s, first, o);
    FollowBranch(run, w, pc, first, s, audit, o, mid, no);
    if e.reply.Ok? {
      AccountReply(e.stores, second, q);
      FollowBranch(run.Then(o), w, mid, second, e.stores, audit, q, yes, no);
    }
  }

  function CreatingUser(w: Work, h: Host): Action {
    CreateUser(w.user, h, w.call.password)
  }

  function AlteringUser(w: Work, h: Host): Action {
    AlterUser(w.user, h, w.call.password)
  }

  function DroppingUser(w: Work, h: Host): Action {
    Action.DropUser(w.user, h)
  }

  function Granting(w: Work, h: Host): Action {
    GrantOn(w.db, w.user, h, Privileges(w.call.allowDrop))
  }

  lemma UserBranches(w: Work)
    ensures Branches(w, CUser(Loopback), CreatingUser(w, Loopback), CUser(Localhost), CUndoDatabase(UserFault))
    ensures Branches(w, CUser(Localhost), CreatingUser(w, Localhost), CGrant(Loopback), CUndoDatabase(UserFault))
  {
  }

  lemma UsersFollowed(run: Run, w: Work, s: Stores, audit: seq<Record>, o: Outcome, q: Outcome)
    requires Follows(run, InCall(w, CUser(Loopback)), s, audit)
    ensures var first, second := CreatingUser(w, Loopback), CreatingUser(w, Localhost);
      var e := BothHosts(s, first, second, o, q);
      Follows(ThenBoth(run, s, first, o, q),
              InCall(w, if e.reply.Ok? then CGrant(Loopback) else CUndoDatabase(UserFault)), e.stores, audit)
  {
    UserBranches(w);
    BothFollowed(run, w, s, audit,
                 CUser(Loopback), CUser(Localhost), CreatingUser(w, Loopback), CreatingUser(w, Localhost),
                 CGrant(Loopback), CUndoDatabase(UserFault), o, q);
  }

  lemma AlterBranches(w: Work)
    ensures Branches(w, RAlter(Loopback), AlteringUser(w, Loopback), RAlter(Localhost), RFailed(AlterFault))
    ensures Branches(w, RAlter(Localhost), AlteringUser(w, Localhost), RSecret, RFailed(AlterFault))
  {
  }

  lemma AltersFollowed(run: Run, w: Work, s: Stores, audit: seq<Record>, o: Outcome, q: Outcome)
    requires Follows(run, InCall(w, RAlter(Loopback)), s, audit)
    ensures var first, second := AlteringUser(w, Loopback), AlteringUser(w, Localhost);
      var e := BothHosts(s, first, second, o, q);
      Follows(ThenBoth(run, s, first, o, q),
              InCall(w, if e.reply.Ok? then RSecret else RFailed(AlterFault)), e.stores, audit)
  {
    AlterBranches(w);
    BothFollowed(run, w, s, audit,
                 RAlter(Loopback), RAlter(Localhost), AlteringUser(w, Loopback), AlteringUser(w, Localhost),
                 RSecret, RFailed(AlterFault), o, q);
  }

  lemma UndoBranches(w: Work)
    ensures Branches(w, CUndoUser(Loopback), DroppingUser(w, Loopback), CUndoUser(Localhost), CUndoDatabase(GrantFault))
    ensures Branches(w, CUndoUser(Localhost), DroppingUser(w, Localhost),
                     CUndoDatabase(GrantFault), CUndoDatabase(GrantFault))
  {
  }

  lemma DropLoopbackBranch(w: Work, partial: seq<Fault>)
    ensures Branches(w, DUser(Loopback, partial), DroppingUser(w, Loopback),
                     DUser(Localhost, partial), DSecret(partial + [DropUserFault]))
  {
  }

  lemma DropLocalhostBranch(w: Work, partial: seq<Fault>)
    ensures Branches(w, DUser(Localhost, partial), DroppingUser(w, Localhost),
                     DSecret(partial), DSecret(partial + [DropUserFault]))
  {
  }

  lemma GrantBranches(w: Work)
    ensures Branches(w, CGrant(Loopback), Granting(w, Loopback), CGrant(Localhost), CUndoUser(Loopback))
    ensures Branches(w, CGrant(Localhost), Granting(w, Localhost), CFlush, CUndoUser(Loopback))
  {
  }

  lemma GrantsFollowed(run: Run, w: Work, s: Stores, audit: seq<Record>, o: Outcome, q: Outcome)
    requires Follows(run, InCall(w, CGrant(Loopback)), s, audit)
    ensures var first, second := Granting(w, Loopback), Granting(w, Localhost);
      var e := BothHosts(s, first, second, o, q);
      Follows(ThenBoth(run, s, first, o, q), InCall(w, if e.reply.Ok? then CFlush else CUndoUser(Loopback)), e.stores, audit)
  {
    GrantBranches(w);
    BothFollowed(run, w, s, audit, CGrant(Loopback), CGrant(Localhost), Granting(w, Loopback), Granting(w, Localhost),
                 CFlush, CUndoUser(Loopback), o, q);
  }

  lemma FlushBranch(w: Work)
    ensures Branches(w, CFlush, FlushPrivileges, CSecret, CUndoUser(Loopback))
  {
  }

  lemma FlushFollowed(run: Run, w: Work, s: Stores, audit: seq<Record>, flush: Outcome)
    requires Follows(run, InCall(w, CFlush), s, audit)
    ensures Follows(run.Then(flush), InCall(w, if flush.Done? then CSecret else CUndoUser(Loopback)), s, audit)
  {
    FlushBranch(w);
    FollowBranch(run, w, CFlush, FlushPrivileges, s, audit, flush, CSecret, CUndoUser(Loopback));
  }

  /** The run after the grants and, if they succeeded, the flush. */
  function ThenFlush(run: Run, e: Effect, flush: Outcome): (r: Run)
    ensures r.past + r.os == run.past + run.os + (if e.reply.Ok? then [flush] else [])
  {
    if e.reply.Ok? then run.Then(flush) else run
  }

  lemma GrantAndFlushFollowed(run: Run, w: Work, s: Stores, audit: seq<Record>, o: Outcome, q: Outcome, flush: Outcome)
    requires Follows(run, InCall(w, CGrant(Loopback)), s, audit)
    ensures var first := Granting(w, Loopback);
      var second := Granting(w, Localhost);
      var e := BothHosts(s, first, second, o, q);
      Follows(ThenFlush(ThenBoth(run, s, first, o, q), e, flush),
              InCall(w, if e.reply.Ok? && flush.Done? then CSecret else CUndoUser(Loopback)), e.stores, audit)
  {
    var first := Granting(w, Loopback);
    var second := Granting(w, Localhost);
    GrantsFollowed(run, w, s, audit, o, q);
    if BothHosts(s, first, second, o, q).reply.Ok? {
      FlushFollowed(ThenBoth(run, s, first, o, q), w, BothHosts(s, first, second, o, q).stores, audit, flush);
    }
  }

  // ---------------------------------------------------------------- the draw

  /** Points of a call at which its password has not been used. */
  predicate Early(pc: Pc) {
    pc.CLookup? || pc.CInsert? || pc.CDraw? || pc.CDatabase? || pc.RLookup? || pc.RDraw? || pc == RAlter(Loopback)
  }

  function WithPassword(t: Thread, password: string): Thread {
    t.(call := t.call.(password := password))
  }

  lemma EarlyBefore(t: Thread, r: Reply)
    requires Active(t) && Early(NextPc(t, r))
    ensures Early(t.pc) && !t.pc.RAlter?
  {
  }

  lemma EarlyStep(p: Progress, o: Outcome, password: string)
    requires Active(p.thread) && Early(p.thread.pc) && !p.thread.pc.RAlter?
    ensures Step(p.(thread := WithPassword(p.thread, password)), o) ==
            Step(p, o).(thread := WithPassword(Step(p, o).thread, password))
  {
    assert ActionOf(WithPassword(p.thread, password)) == ActionOf(p.thread);
  }

  /** Until its draw a call runs the same whatever password it will draw. */
  lemma {:induction false} PasswordIsUnseen(s: Stores, call: Call, os: seq<Outcome>, password: string)
    requires Early(RunCall(s, call, os).thread.pc)
    ensures var p := RunCall(s, call, os);
      RunCall(s, call.(password := password), os) == p.(thread := WithPassword(p.thread, password))
  {
    if os != [] {
      var p := RunCall(s, call, os[..|os| - 1]);
      if Active(p.thread) {
        EarlyBefore(p.thread, Perform(p.stores, ActionOf(p.thread), os[|os| - 1]).reply);
        EarlyStep(p, os[|os| - 1], password);
      }
      PasswordIsUnseen(s, call, os[..|os| - 1], password);
    }
  }

  function AfterDraw(pc: Pc, ok: bool): Pc {
    if pc.CDraw? then (if ok then CDatabase else CMark(DrawFault))
    else if ok then RAlter(Loopback) else Finished(FailedWith(DrawFault))
  }

  lemma DrawFollowed(run: Run, w: Work, pc: Pc, s: Stores, audit: seq<Record>, ok: bool)
    requires Follows(run, InCall(w, pc), s, audit) && (pc.CDraw? || pc.RDraw?)
    ensures Follows(run.Then(if ok then Done else Failed(false)), InCall(w, AfterDraw(pc, ok)), s, audit)
  {
    Follow(run, InCall(w, pc), s, audit, if ok then Done else Failed(false));
    assert audit + [] == audit;
  }

  /** Once drawn, the password belongs to the call from its start. */
  lemma DrawnFollows(run: Run, w: Work, pc: Pc, s: Stores, audit: seq<Record>, password: string)
    requires Follows(run, InCall(w, pc), s, audit) && Early(pc) && run.call == w.call
    ensures Follows(run.(call := w.With(password).call), InCall(w.With(password), pc), s, audit)
  {
    PasswordIsUnseen(run.start, w.call, run.os, password);
  }

  /** The password the generator makes of two successful draws. */
  ghost predicate Drawn(password: string, draw0: Option<seq<Byte>>, draw1: Option<seq<Byte>>) {
    && draw0.Some? && |draw0.value| == 24 && draw1.Some? && |draw1.value| == 4
    && IsGenerated(password, draw0.value, draw1.value)
  }

  // ---------------------------------------------------------------- rows

  /** Every row belongs to a valid name and names that project's identifiers. */
  ghost predicate RowsAreKeyed(rows: map<string, Row>) {
    forall n :: n in rows ==> ValidName(n) && RowKeyed(Some(rows[n]), KeysOf(n))
  }

  lemma CallsKeepRowsKeyed(s: Stores, call: Call, os: seq<Outcome>)
    requires RowsAreKeyed(s.rows) && ValidName(call.name)
    ensures RowsAreKeyed(RunCall(s, call, os).stores.rows)
  {
    var rows := RunCall(s, call, os).stores.rows;
    forall n | n in rows ensures ValidName(n) && RowKeyed(Some(rows[n]), KeysOf(n)) {
      if n == call.name {
        RunKeyed(s, call, os);
      } else {
        RunLeavesOtherRows(s, call, os, n);
        assert Lookup(rows, n) == Lookup(s.rows, n);
      }
    }
  }

  // ---------------------------------------------------------------- the service

  /** Exactly one statement was made, the write of this record. */
  predicate OnlyLogged(before: seq<Record>, after: seq<Record>, past: seq<Outcome>, now: seq<Outcome>, record: Record) {
    |now| == |past| + 1 && past <= now && after == before + (if now[|past|].Applies() then [record] else [])
  }

  /** The run began in this state, with this log and this journal. */
  predicate Begins(run: Run, start: Stores, audit: seq<Record>, past: seq<Outcome>) {
    run.start == start && run.audit == audit && run.past == past
  }

  class Service {
    const store: Store
    const mysql: Provisioner
    const secrets: Volume.Writer
    const inflight: LockRegistry
    const allowDrop: bool

    constructor (store: Store, mysql: Provisioner, secrets: Volume.Writer, allowDrop: bool)
      requires store.creating.Valid() && store.creating.held == {} && secrets.Valid()
      requires mysql.journal == store.journal && secrets.journal == store.journal
      ensures Valid() && this.store == store && this.mysql == mysql && this.secrets == secrets
      ensures this.allowDrop == allowDrop
    {
      this.store, this.mysql, this.secrets, this.allowDrop := store, mysql, secrets, allowDrop;
      inflight := new LockRegistry();
    }

    /** What the four collaborators hold. */
    ghost function State(): Stores
      reads store, mysql, secrets
    {
      Stores(store.rows, mysql.dbs, mysql.accounts, secrets.files)
    }

    /** All collaborators write the same journal. */
    ghost predicate Wired() {
      mysql.journal == store.journal && secrets.journal == store.journal
    }

    /** Between calls: no mutex is held. */
    ghost predicate Valid()
      reads store, store.creating, inflight, secrets, secrets.dir
    {
      && Wired() && secrets.Valid() && store.creating != inflight
      && store.creating.Valid() && store.creating.held == {} && inflight.Valid() && inflight.held == {}
    }

    /** The call has come this far, with the outcomes that the journal has recorded since it began. */
    ghost predicate At(run: Run, t: Thread)
      reads store, mysql, secrets, secrets.dir, store.journal
    {
      Wired() && secrets.Valid() && Follows(run, t, State(), store.audit) && store.journal.outcomes == run.past + run.os
    }

    // -------------------------------------------------------------- statements, followed

    method GetProject(name: string, ghost run: Run, ghost t: Thread) returns (r: Reply, ghost next: Run)
      requires At(run, t) && Active(t) && ActionOf(t) == Action.GetProject(name)
      modifies store.journal
      ensures At(next, Resume(t, r)) && run.ContinuedBy(next)
      ensures r == Missing || r == Err || (name in store.rows && r == Found(store.rows[name]))
    {
      ghost var o: Outcome;
      r, o := store.GetProject(name);
      Follow(run, t, State(), store.audit, o);
      assert Assign(store.rows, name, Lookup(store.rows, name)) == store.rows;
      assert store.audit + [] == store.audit;
      next := run.Then(o);
    }

    method CreateProject(name: string, row: Row, ghost run: Run, ghost t: Thread) returns (r: Reply, ghost next: Run)
      requires At(run, t) && Active(t) && ActionOf(t) == Action.CreateProject(name, row)
      modifies store`rows, store.journal
      ensures At(next, Resume(t, r)) && run.ContinuedBy(next)
      ensures r == Ok || r == Conflict || r == Err
    {
      ghost var s, o := State(), Done;
      r, o := store.CreateProject(name, row);
      Follow(run, t, s, store.audit, o);
      assert store.audit + [] == store.audit;
      next := run.Then(o);
    }

    method UpdateProjectStatus(name: string, status: Status, lastError: Fault,
                               ghost run: Run, ghost w: Work, ghost pc: Pc, ghost yes: Pc, ghost no: Pc)
      returns (ok: bool, ghost next: Run)
      requires At(run, InCall(w, pc)) && Branches(w, pc, Action.UpdateProjectStatus(name, status, lastError), yes, no)
      modifies store`rows, store.journal
      ensures At(next, InCall(w, if ok then yes else no)) && run.ContinuedBy(next)
    {
      ghost var s, o := State(), Done;
      var r;
      r, o := store.UpdateProjectStatus(name, status, lastError);
      ok := r.Ok?;
      RowFollowed(run, w, pc, Action.UpdateProjectStatus(name, status, lastError), s, store.audit, o, yes, no);
      next := run.Then(o);
    }

    method DeleteProject(name: string, ghost run: Run, ghost w: Work, ghost pc: Pc, ghost yes: Pc, ghost no: Pc)
      returns (ok: bool, ghost next: Run)
      requires At(run, InCall(w, pc)) && Branches(w, pc, Action.DeleteProject(name), yes, no)
      modifies store`rows, store.journal
      ensures At(next, InCall(w, if ok then yes else no)) && run.ContinuedBy(next)
    {
      ghost var s, o := State(), Done;
      var r;
      r, o := store.DeleteProject(name);
      ok := r.Ok?;
      RowFollowed(run, w, pc, Action.DeleteProject(name), s, store.audit, o, yes, no);
      next := run.Then(o);
    }

    /** An error of the audit write is dropped, so the call goes on alike. */
    method Audit(record: Record, ghost run: Run, ghost w: Work, ghost pc: Pc, ghost after: Pc)
      returns (ghost next: Run)
      requires At(run, InCall(w, pc)) && Branches(w, pc, WriteAudit(record), after, after)
      modifies store`audit, store.journal
      ensures At(next, InCall(w, after)) && run.ContinuedBy(next)
    {
      ghost var audit := store.audit;
      ghost var o := store.WriteAudit(record);
      FollowRecord(run, w, pc, record, State(), audit, o, after);
      next := run.Then(o);
    }

    method DropDatabase(db: string, ghost run: Run, ghost w: Work, ghost pc: Pc, ghost yes: Pc, ghost no: Pc)
      returns (ok: bool, ghost next: Run)
      requires At(run, InCall(w, pc)) && Branches(w, pc, Action.DropDatabase(db), yes, no)
      modifies mysql, store.journal
      ensures At(next, InCall(w, if ok then yes else no)) && run.ContinuedBy(next)
    {
      ghost var s, o := State(), Done;
      ok, o := mysql.DropDatabase(db);
      ServerPart(s, Action.DropDatabase(db), o);
      FollowBranch(run, w, pc, Action.DropDatabase(db), s, store.audit, o, yes, no);
      next := run.Then(o);
    }

    method EnsureDatabase(db: string, ghost run: Run, ghost w: Work, ghost pc: Pc, ghost yes: Pc, ghost no: Pc)
      returns (ok: bool, ghost next: Run)
      requires At(run, InCall(w, pc)) && Branches(w, pc, CreateDatabase(db), yes, no)
      modifies mysql, store.journal
      ensures At(next, InCall(w, if ok then yes else no)) && run.ContinuedBy(next)
    {
      ghost var s, o := State(), Done;
      ok, o := mysql.EnsureDatabase(db);
      ServerPart(s, CreateDatabase(db), o);
      FollowBranch(run, w, pc, CreateDatabase(db), s, store.audit, o, yes, no);
      next := run.Then(o);
    }

    /** What the call needs to know of the writer: the file is written, or nothing changed. */
    method StoreFile(secret: Secret) returns (ok: bool)
      requires Wired() && secrets.Valid()
      modifies secrets, secrets.dir, store.journal
      ensures secrets.Valid() && (ok ==> Accepts(secret))
      ensures store.journal.outcomes == old(store.journal.outcomes) + [if ok then Done else Failed(false)]
      ensures secrets.files == if ok then old(secrets.files)[secret.name := secret] else old(secrets.files)
    {
      ghost var durable: bool;
      ghost var attempt: Volume.Attempt;
      var path;
      path, durable, attempt := secrets.Write(secret);
      ok := path.Some?;
    }

    method RemoveFile(name: string) returns (ok: bool, ghost o: Outcome)
      requires Wired() && secrets.Valid()
      modifies secrets, secrets.dir, store.journal
      ensures secrets.Valid() && (ok <==> o.Done?) && store.journal.outcomes == old(store.journal.outcomes) + [o]
      ensures secrets.files == if o.Applies() then old(secrets.files) - {name} else old(secrets.files)
    {
      ok, o := secrets.Delete(name);
    }

    method WriteSecret(secret: Secret, ghost run: Run, ghost w: Work, ghost pc: Pc, ghost yes: Pc, ghost no: Pc)
      returns (ok: bool, ghost next: Run)
      requires At(run, InCall(w, pc)) && Branches(w, pc, Action.WriteSecret(secret), yes, no)
      modifies secrets, secrets.dir, store.journal
      ensures At(next, InCall(w, if ok then yes else no)) && run.ContinuedBy(next)
    {
      ghost var s := State();
      next := run;
      ok := StoreFile(secret);
      SecretFollowed(run, w, pc, s, store.audit, secret, ok, yes, no);
      next := next.Then(if ok then Done else Failed(false));
    }

    method RemoveSecret(name: string, ghost run: Run, ghost w: Work, ghost pc: Pc, ghost yes: Pc, ghost no: Pc)
      returns (ok: bool, ghost next: Run)
      requires At(run, InCall(w, pc)) && Branches(w, pc, Action.RemoveSecret(name), yes, no)
      modifies secrets, secrets.dir, store.journal
      ensures At(next, InCall(w, if ok then yes else no)) && run.ContinuedBy(next)
    {
      ghost var s, o := State(), Done;
      ok, o := RemoveFile(name);
      SecretRemoved(s, name, o);
      FollowBranch(run, w, pc, Action.RemoveSecret(name), s, store.audit, o, yes, no);
      next := run.Then(o);
    }

    method EnsureUser(user: string, password: string, ghost run: Run, ghost w: Work)
      returns (ok: bool, ghost next: Run)
      requires user == w.user && password == w.call.password
      requires IsSafePasswordLiteral(password)
      requires At(run, InCall(w, CUser(Loopback)))
      modifies mysql, store.journal
      ensures At(next, InCall(w, if ok then CGrant(Loopback) else CUndoDatabase(UserFault))) && run.ContinuedBy(next)
    {
      ghost var s, o, q := State(), Done, Done;
      ghost var first, second := CreatingUser(w, Loopback), CreatingUser(w, Localhost);
      ok, o, q := mysql.EnsureUser(user, password);
      UsersFollowed(run, w, s, store.audit, o, q);
      BothServerPart(s, first, second, o, q);
      next := ThenBoth(run, s, first, o, q);
    }

    method SetUserPassword(user: string, password: string, ghost run: Run, ghost w: Work)
      returns (ok: bool, ghost next: Run)
      requires user == w.user && password == w.call.password
      requires IsSafePasswordLiteral(password)
      requires At(run, InCall(w, RAlter(Loopback)))
      modifies mysql, store.journal
      ensures At(next, InCall(w, if ok then RSecret else RFailed(AlterFault))) && run.ContinuedBy(next)
    {
      ghost var s, o, q := State(), Done, Done;
      ghost var first, second := AlteringUser(w, Loopback), AlteringUser(w, Localhost);
      ok, o, q := mysql.SetUserPassword(user, password);
      AltersFollowed(run, w, s, store.audit, o, q);
      BothServerPart(s, first, second, o, q);
      next := ThenBoth(run, s, first, o, q);
    }

    /** Drops both accounts, from `pc` on. */
    method DropUser(user: string, ghost run: Run, ghost w: Work, ghost pc: Pc, ghost mid: Pc, ghost yes: Pc, ghost no: Pc)
      returns (ok: bool, ghost next: Run)
      requires user == w.user && At(run, InCall(w, pc))
      requires Branches(w, pc, DroppingUser(w, Loopback), mid, no) && Branches(w, mid, DroppingUser(w, Localhost), yes, no)
      modifies mysql, store.journal
      ensures At(next, InCall(w, if ok then yes else no)) && run.ContinuedBy(next)
    {
      ghost var s, o, q := State(), Done, Done;
      ghost var first, second := DroppingUser(w, Loopback), DroppingUser(w, Localhost);
      ok, o, q := mysql.DropUser(user);
      BothServerPart(s, first, second, o, q);
      assert State() == BothHosts(s, first, second, o, q).stores;
      BothFollowed(run, w, s, store.audit, pc, mid, first, second, yes, no, o, q);
      next := ThenBoth(run, s, first, o, q);
    }

    method GrantProjectPrivileges(db: string, user: string, ghost run: Run, ghost w: Work)
      returns (ok: bool, ghost next: Run)
      requires db == w.db && user == w.user
      requires w.call.allowDrop == allowDrop
      requires At(run, InCall(w, CGrant(Loopback)))
      modifies mysql, store.journal
      ensures At(next, InCall(w, if ok then CSecret else CUndoUser(Loopback))) && run.ContinuedBy(next)
    {
      ghost var s, o, q, flush := State(), Done, Done, Done;
      ghost var first, second := Granting(w, Loopback), Granting(w, Localhost);
      ok, o, q, flush := mysql.GrantProjectPrivileges(db, user, allowDrop);
      GrantAndFlushFollowed(run, w, s, store.audit, o, q, flush);
      BothServerPart(s, first, second, o, q);
      next := ThenFlush(ThenBoth(run, s, first, o, q), BothHosts(s, first, second, o, q), flush);
    }

    /** The run has ended in the present state with this answer. */
    ghost predicate Ended(run: Run, r: CallResult)
      reads store, mysql, secrets, secrets.dir, store.journal
    {
      var p := RunCall(run.start, run.call, run.os);
      && Wired() && secrets.Valid() && store.journal.outcomes == run.past + run.os
      && p.stores == State() && p.thread.pc == Finished(r) && store.audit == run.audit + p.log
    }

    method DrawForCreate(draw0: Option<seq<Byte>>, draw1: Option<seq<Byte>>, ghost run: Run, ghost w: Work)
      returns (password: Option<string>, ghost next: Run)
      requires draw0.Some? ==> |draw0.value| == 24
      requires draw1.Some? ==> |draw1.value| == 4
      requires At(run, InCall(w, CDraw)) && run.call == w.call
      modifies store.journal
      ensures password.None? ==> At(next, InCall(w, CMark(DrawFault))) && next.call == w.call
      ensures password.Some? <==> draw0.Some? && draw1.Some?
      ensures password.Some? ==> next.call == w.With(password.value).call
      ensures password.Some? ==> At(next, InCall(w.With(password.value), CDatabase))
      ensures password.Some? ==> Drawn(password.value, draw0, draw1) && IsSafePasswordLiteral(password.value)
      ensures run.StartsLike(next)
    {
      var drawn := RandomPassword(draw0, draw1);
      next := run.Then(if drawn.Success? then Done else Failed(false));
      store.journal.Note(if drawn.Success? then Done else Failed(false));
      DrawFollowed(run, w, CDraw, State(), store.audit, drawn.Success?);
      password := None;
      if drawn.Success? {
        password := Some(drawn.value);
        GeneratedIsStrong(drawn.value, draw0.value, draw1.value);
        DrawnFollows(next, w, CDatabase, State(), store.audit, drawn.value);
        next := next.(call := w.With(drawn.value).call);
      }
    }

    method DrawForRotate(draw0: Option<seq<Byte>>, draw1: Option<seq<Byte>>, ghost run: Run, ghost w: Work)
      returns (password: Option<string>, ghost next: Run)
      requires draw0.Some? ==> |draw0.value| == 24
      requires draw1.Some? ==> |draw1.value| == 4
      requires At(run, InCall(w, RDraw)) && run.call == w.call
      modifies store.journal
      ensures password.None? ==> At(next, InCall(w, Finished(FailedWith(DrawFault)))) && next.call == w.call
      ensures password.Some? <==> draw0.Some? && draw1.Some?
      ensures password.Some? ==> next.call == w.With(password.value).call
      ensures password.Some? ==> At(next, InCall(w.With(password.value), RAlter(Loopback)))
      ensures password.Some? ==> Drawn(password.value, draw0, draw1) && IsSafePasswordLiteral(password.value)
      ensures run.StartsLike(next)
    {
      var drawn := RandomPassword(draw0, draw1);
      next := run.Then(if drawn.Success? then Done else Failed(false));
      store.journal.Note(if drawn.Success? then Done else Failed(false));
      DrawFollowed(run, w, RDraw, State(), store.audit, drawn.Success?);
      password := None;
      if drawn.Success? {
        password := Some(drawn.value);
        GeneratedIsStrong(drawn.value, draw0.value, draw1.value);
        DrawnFollows(next, w, RAlter(Loopback), State(), store.audit, drawn.value);
        next := next.(call := w.With(drawn.value).call);
      }
    }

    // -------------------------------------------------------------- create

    method ReportFailure(name: string, fault: Fault, ghost run: Run, ghost w: Work)
      returns (r: CallResult, ghost next: Run)
      requires At(run, InCall(w, CFailed(fault))) && name == w.call.name
      modifies store`audit, store.journal
      ensures Ended(next, r) && run.ContinuedBy(next)
      ensures r == FailedWith(fault)
    {
      CreateFailureRecord(w, fault);
      next := Audit(Record(CreateOp, name, false, FaultMsg(fault)), run, w, CFailed(fault), Finished(FailedWith(fault)));
      r := FailedWith(fault);
    }

    /** Marks the row as failed, then reports. */
    method Fail(name: string, fault: Fault, ghost run: Run, ghost w: Work) returns (r: CallResult, ghost next: Run)
      requires At(run, InCall(w, CMark(fault))) && name == w.call.name && fault != DrawFault
      modifies store`rows, store`audit, store.journal
      ensures Ended(next, r) && run.ContinuedBy(next)
      ensures r == FailedWith(fault)
    {
      var ok;
      MarkBranch(w, fault);
      ok, next := UpdateProjectStatus(name, Error, fault, run, w, CMark(fault), CFailed(fault), CFailed(fault));
      r, next := ReportFailure(name, fault, next, w);
    }

    method ReportSuccess(name: string, row: Row, ghost run: Run, ghost w: Work)
      returns (r: CallResult, ghost next: Run)
      requires At(run, InCall(w, CCreated(row))) && name == w.call.name
      modifies store`audit, store.journal
      ensures Ended(next, r) && run.ContinuedBy(next)
      ensures r != FailedWith(DrawFault)
    {
      CreatedRecord(w, row);
      next := Audit(Record(CreateOp, name, true, CreatedMsg), run, w, CCreated(row), Finished(Created(row)));
      r := Created(row);
    }

    /** Reads the ready row back and reports it. */
    method ReportCreated(name: string, ghost run: Run, ghost w: Work) returns (r: CallResult, ghost next: Run)
      requires At(run, InCall(w, CFinal)) && name == w.call.name
      modifies store`audit, store.journal
      ensures Ended(next, r) && run.ContinuedBy(next)
      ensures r != FailedWith(DrawFault)
    {
      var final;
      final, next := GetProject(name, run, InCall(w, CFinal));
      if final.Found? {
        r, next := ReportSuccess(name, final.row, next, w);
      } else {
        r, next := ReportFailure(name, FinalFault, next, w);
      }
    }

    /** From the written secret to the answer. */
    method FinishCreate(name: string, ghost run: Run, ghost w: Work) returns (r: CallResult, ghost next: Run)
      requires At(run, InCall(w, CReady)) && name == w.call.name
      modifies store`rows, store`audit, store.journal
      ensures Ended(next, r) && run.ContinuedBy(next)
      ensures r != FailedWith(DrawFault)
    {
      var ok;
      ReadyBranch(w);
      ok, next := UpdateProjectStatus(name, Ready, NoFault, run, w, CReady, CFinal, CFailed(StatusFault));
      if ok {
        r, next := ReportCreated(name, next, w);
      } else {
        r, next := ReportFailure(name, StatusFault, next, w);
      }
    }

    /** From the drawn password to the answer, with the rollbacks of each failure. */
    method ProvisionProject(name: string, password: string, ghost run: Run, ghost w: Work)
      returns (r: CallResult, ghost next: Run)
      requires w == CreateWork(name, password, allowDrop) && IsSafePasswordLiteral(password)
      requires At(run, InCall(w, CDatabase))
      modifies store`rows, store`audit, mysql, secrets, secrets.dir, store.journal
      ensures Ended(next, r) && run.ContinuedBy(next)
      ensures r != FailedWith(DrawFault)
    {
      var ids := ProjectIdentifiers(name);
      var ok;
      DatabaseBranch(w);
      ok, next := EnsureDatabase(ids.0, run, w, CDatabase, CUser(Loopback), CMark(DatabaseFault));
      if !ok {
        r, next := Fail(name, DatabaseFault, next, w);
        return;
      }
      ok, next := EnsureUser(ids.1, password, next, w);
      if !ok {
        r, next := Undo(name, ids.0, UserFault, next, w);
        return;
      }
      ok, next := GrantProjectPrivileges(ids.0, ids.1, next, w);
      if !ok {
        UndoBranches(w);
        ok, next := DropUser(ids.1, next, w, CUndoUser(Loopback), CUndoUser(Localhost),
                             CUndoDatabase(GrantFault), CUndoDatabase(GrantFault));
        r, next := Undo(name, ids.0, GrantFault, next, w);
        return;
      }
      r, next := StoreSecret(name, password, next, w);
    }

    /** Drops the database, ignoring an error, and fails. */
    method Undo(name: string, db: string, fault: Fault, ghost run: Run, ghost w: Work)
      returns (r: CallResult, ghost next: Run)
      requires db == w.db && name == w.call.name && fault != DrawFault && At(run, InCall(w, CUndoDatabase(fault)))
      modifies store`rows, store`audit, mysql, store.journal
      ensures Ended(next, r) && run.ContinuedBy(next)
      ensures r == FailedWith(fault)
    {
      var ok;
      UndoBranch(w, fault);
      ok, next := DropDatabase(db, run, w, CUndoDatabase(fault), CMark(fault), CMark(fault));
      r, next := Fail(name, fault, next, w);
    }

    method StoreSecret(name: string, password: string, ghost run: Run, ghost w: Work)
      returns (r: CallResult, ghost next: Run)
      requires w == CreateWork(name, password, allowDrop) && At(run, InCall(w, CSecret))
      modifies store`rows, store`audit, secrets, secrets.dir, store.journal
      ensures Ended(next, r) && run.ContinuedBy(next)
      ensures r != FailedWith(DrawFault)
    {
      var ids := ProjectIdentifiers(name);
      var ok;
      CreateSecretBranch(w);
      ok, next := WriteSecret(Secret(name, ids.0, ids.1, password), run, w, CSecret, CReady, CMark(SecretFault));
      if ok {
        r, next := FinishCreate(name, next, w);
      } else {
        r, next := Fail(name, SecretFault, next, w);
      }
    }

    /** A ready project is returned as it is; any other row is refused. */
    method AnswerExisting(name: string, row: Row, ghost run: Run, ghost w: Work)
      returns (r: CallResult, ghost next: Run)
      requires name == w.call.name
      requires At(run, InCall(w, if row.status.Ready? then CIdempotent(row) else Finished(Refused(row.status))))
      modifies store`audit, store.journal
      ensures Ended(next, r) && run.ContinuedBy(next)
      ensures r != FailedWith(DrawFault)
    {
      next := run;
      if row.status.Ready? {
        IdempotentRecord(w, row);
        next := Audit(Record(CreateOp, name, true, IdempotentMsg), run, w, CIdempotent(row), Finished(Idempotent(row)));
        r := Idempotent(row);
      } else {
        r := Refused(row.status);
      }
    }

    method AnswerConflict(name: string, ghost run: Run, ghost w: Work) returns (r: CallResult, ghost next: Run)
      requires name == w.call.name && At(run, InCall(w, CConflictLookup))
      modifies store`audit, store.journal
      ensures Ended(next, r) && run.ContinuedBy(next)
      ensures r != FailedWith(DrawFault)
    {
      var existing;
      existing, next := GetProject(name, run, InCall(w, CConflictLookup));
      if existing.Found? {
        r, next := AnswerConflicting(name, existing.row, next, w);
      } else {
        r := AlreadyExists;
      }
    }

    method AnswerConflicting(name: string, row: Row, ghost run: Run, ghost w: Work)
      returns (r: CallResult, ghost next: Run)
      requires name == w.call.name && At(run, InCall(w, CConflict(row)))
      modifies store`audit, store.journal
      ensures Ended(next, r) && run.ContinuedBy(next)
      ensures r != FailedWith(DrawFault)
    {
      ConflictRecord(w, row);
      next := Audit(Record(CreateOp, name, true, IdempotentMsg), run, w, CConflict(row), Finished(Idempotent(row)));
      r := Idempotent(row);
    }

    /** A failed draw marks the row and is not logged. */
    method FailDraw(name: string, ghost run: Run, ghost w: Work) returns (r: CallResult, ghost next: Run)
      requires At(run, InCall(w, CMark(DrawFault))) && name == w.call.name
      modifies store`rows, store.journal
      ensures Ended(next, r) && run.ContinuedBy(next)
    {
      var ok;
      ghost var end := Finished(FailedWith(DrawFault));
      MarkBranch(w, DrawFault);
      ok, next := UpdateProjectStatus(name, Error, DrawFault, run, w, CMark(DrawFault), end, end);
      r := FailedWith(DrawFault);
    }

    /** The rest of a Create whose row has just been inserted. */
    method DrawAndProvision(name: string, draw0: Option<seq<Byte>>, draw1: Option<seq<Byte>>,
                            ghost run: Run, ghost w: Work)
      returns (r: CallResult, ghost next: Run)
      requires draw0.Some? ==> |draw0.value| == 24
      requires draw1.Some? ==> |draw1.value| == 4
      requires w == CreateWork(name, "", allowDrop) && run.call == w.call
      requires At(run, InCall(w, CDraw))
      modifies store`rows, store`audit, mysql, secrets, secrets.dir, store.journal
      ensures Ended(next, r) && run.StartsLike(next)
      ensures next.call == w.call ||
        (Drawn(next.call.password, draw0, draw1) && next.call == w.With(next.call.password).call)
      ensures r == FailedWith(DrawFault) ==> draw0.None? || draw1.None?
    {
      var password;
      password, next := DrawForCreate(draw0, draw1, run, w);
      if password.None? {
        r, next := FailDraw(name, next, w);
      } else {
        r, next := ProvisionProject(name, password.value, next, w.With(password.value));
      }
    }

    method InsertAndProvision(name: string, draw0: Option<seq<Byte>>, draw1: Option<seq<Byte>>,
                              ghost run: Run, ghost w: Work)
      returns (r: CallResult, ghost next: Run)
      requires draw0.Some? ==> |draw0.value| == 24
      requires draw1.Some? ==> |draw1.value| == 4
      requires w == CreateWork(name, "", allowDrop) && run.call == w.call
      requires At(run, InCall(w, CInsert))
      modifies store`rows, store`audit, mysql, secrets, secrets.dir, store.journal
      ensures Ended(next, r) && run.StartsLike(next)
      ensures next.call == w.call ||
        (Drawn(next.call.password, draw0, draw1) && next.call == w.With(next.call.password).call)
      ensures r == FailedWith(DrawFault) ==> draw0.None? || draw1.None?
    {
      var ids := ProjectIdentifiers(name);
      var inserted;
      inserted, next := CreateProject(name, Row(ids.0, ids.1, Pending, NoFault), run, InCall(w, CInsert));
      if inserted.Conflict? {
        r, next := AnswerConflict(name, next, w);
      } else if inserted.Err? {
        r, next := ReportFailure(name, InsertFault, next, w);
      } else {
        r, next := DrawAndProvision(name, draw0, draw1, next, w);
      }
    }

    /** Create, inside both locks. */
    method CreateLocked(name: string, draw0: Option<seq<Byte>>, draw1: Option<seq<Byte>>)
      returns (r: CallResult, ghost run: Run)
      requires draw0.Some? ==> |draw0.value| == 24
      requires draw1.Some? ==> |draw1.value| == 4
      requires ValidName(name) && Wired() && secrets.Valid() && inflight.Holds(name) && store.creating.Holds(name)
      modifies store`rows, store`audit, mysql, secrets, secrets.dir, store.journal
      ensures Ended(run, r) && Begins(run, old(State()), old(store.audit), old(store.journal.outcomes))
      ensures run.call == Call(CreateOp, name, run.call.password, allowDrop)
      ensures run.call.password == "" || Drawn(run.call.password, draw0, draw1)
      ensures r == FailedWith(DrawFault) ==> draw0.None? || draw1.None?
    {
      ghost var w := CreateWork(name, "", allowDrop);
      run := Run(State(), store.audit, store.journal.outcomes, w.call, []);
      FollowNothing(run);
      var existing;
      existing, run := GetProject(name, run, InCall(w, CLookup));
      if existing.Found? {
        r, run := AnswerExisting(name, existing.row, run, w);
      } else if existing.Missing? {
        r, run := InsertAndProvision(name, draw0, draw1, run, w);
      } else {
        r := FailedWith(LookupFault);
      }
    }

    /** A call refused before any lock: nothing but the write of its failure record. */
    method Refuse(op: Operation, name: string, fault: Fault) returns (r: CallResult)
      requires Valid()
      modifies store`audit, store.journal
      ensures Valid() && r == FailedWith(fault) && State() == old(State())
      ensures OnlyLogged(old(store.audit), store.audit, old(store.journal.outcomes), store.journal.outcomes,
                         Record(op, name, false, FaultMsg(fault)))
    {
      ghost var o := store.WriteAudit(Record(op, name, false, FaultMsg(fault)));
      r := FailedWith(fault);
    }

    /** Create, inside the store's lock, taking and giving back the service lock. */
    method CreateInflight(name: string, draw0: Option<seq<Byte>>, draw1: Option<seq<Byte>>)
      returns (r: CallResult, ghost run: Run)
      requires draw0.Some? ==> |draw0.value| == 24
      requires draw1.Some? ==> |draw1.value| == 4
      requires ValidName(name) && Wired() && secrets.Valid() && inflight.Valid() && inflight.held == {}
      requires store.creating.Holds(name)
      modifies store`rows, store`audit, inflight, mysql, secrets, secrets.dir, store.journal
      ensures inflight.Valid() && inflight.held == {}
      ensures Ended(run, r) && Begins(run, old(State()), old(store.audit), old(store.journal.outcomes))
      ensures run.call == Call(CreateOp, name, run.call.password, allowDrop)
      ensures run.call.password == "" || Drawn(run.call.password, draw0, draw1)
      ensures inflight.table == Bind(old(inflight.table), name, old(inflight.next))
      ensures r == FailedWith(DrawFault) ==> draw0.None? || draw1.None?
    {
      ghost var locks: object := inflight;
      assert locks != mysql && locks != secrets && locks != secrets.dir;
      assert locks != store && locks != store.journal;
      ghost var before := State();
      var ioLock := inflight.Lock(name);
      assert State() == before;
      r, run := CreateLocked(name, draw0, draw1);
      inflight.Unlock(ioLock);
    }

    /** Create of a valid name, taking and giving back both locks. */
    method CreateValid(name: string, draw0: Option<seq<Byte>>, draw1: Option<seq<Byte>>)
      returns (r: CallResult, ghost run: Run)
      requires draw0.Some? ==> |draw0.value| == 24
      requires draw1.Some? ==> |draw1.value| == 4
      requires Valid() && ValidName(name)
      modifies store, store.creating, inflight, mysql, secrets, secrets.dir, store.journal
      ensures Valid() && Ended(run, r) && Begins(run, old(State()), old(store.audit), old(store.journal.outcomes))
      ensures run.call == Call(CreateOp, name, run.call.password, allowDrop)
      ensures run.call.password == "" || Drawn(run.call.password, draw0, draw1)
      ensures inflight.table == Bind(old(inflight.table), name, old(inflight.next))
      ensures store.creating.table == Bind(old(store.creating.table), name, old(store.creating.next))
      ensures r == FailedWith(DrawFault) ==> draw0.None? || draw1.None?
    {
      ghost var creating: object := store.creating;
      assert creating != mysql && creating != secrets && creating != secrets.dir;
      assert creating != store && creating != store.journal;
      ghost var before := State();
      var createLock := store.creating.Lock(name);
      assert State() == before;
      r, run := CreateInflight(name, draw0, draw1);
      store.creating.Unlock(createLock);
    }

    /**
     Create. For a valid name the answer, the stores and the log are those of
     the specification's run with the outcomes met, and both locks are free
     again; for any other name nothing but the log changes.
     */
    method Create(name: string, draw0: Option<seq<Byte>>, draw1: Option<seq<Byte>>)
      returns (r: CallResult, ghost run: Run)
      requires Valid()
      requires draw0.Some? ==> |draw0.value| == 24
      requires draw1.Some? ==> |draw1.value| == 4
      modifies store, store.creating, inflight, mysql, secrets, secrets.dir, store.journal
      ensures Valid()
      ensures !ValidName(name) ==>
        && r == FailedWith(InvalidNameFault) && State() == old(State())
        && OnlyLogged(old(store.audit), store.audit, old(store.journal.outcomes), store.journal.outcomes,
                      Record(CreateOp, name, false, FaultMsg(InvalidNameFault)))
      ensures ValidName(name) ==>
        && Ended(run, r) && Begins(run, old(State()), old(store.audit), old(store.journal.outcomes))
        && run.call == Call(CreateOp, name, run.call.password, allowDrop)
        && (run.call.password == "" || Drawn(run.call.password, draw0, draw1))
      ensures ValidName(name) ==>
        && inflight.table == Bind(old(inflight.table), name, old(inflight.next))
        && store.creating.table == Bind(old(store.creating.table), name, old(store.creating.next))
      ensures r == FailedWith(DrawFault) ==> draw0.None? || draw1.None?
    {
      run := Run(State(), store.audit, store.journal.outcomes, Call(CreateOp, name, "", allowDrop), []);
      if !ValidName(name) {
        r := Refuse(CreateOp, name, InvalidNameFault);
        return;
      }
      r, run := CreateValid(name, draw0, draw1);
    }

    // -------------------------------------------------------------- rotate

    method ReportRotateFailure(name: string, fault: Fault, ghost run: Run, ghost w: Work)
      returns (r: CallResult, ghost next: Run)
      requires At(run, InCall(w, RFailed(fault))) && name == w.call.name
      modifies store`audit, store.journal
      ensures Ended(next, r) && run.ContinuedBy(next)
      ensures r == FailedWith(fault)
    {
      RotateFailureRecord(w, fault);
      next := Audit(Record(RotateOp, name, false, FaultMsg(fault)), run, w, RFailed(fault), Finished(FailedWith(fault)));
      r := FailedWith(fault);
    }

    method AnswerRotated(name: string, ghost run: Run, ghost w: Work) returns (r: CallResult, ghost next: Run)
      requires At(run, InCall(w, RFinal)) && name == w.call.name
      modifies store.journal
      ensures Ended(next, r) && run.ContinuedBy(next)
      ensures r != FailedWith(DrawFault)
    {
      var final;
      final, next := GetProject(name, run, InCall(w, RFinal));
      RotatedReadBack(w, final);
      r := if final.Found? then Rotated(final.row) else if final.Missing? then NotFound else FailedWith(LookupFault);
    }

    method ReportRotated(name: string, ghost run: Run, ghost w: Work) returns (r: CallResult, ghost next: Run)
      requires At(run, InCall(w, RRotated)) && name == w.call.name
      modifies store`audit, store.journal
      ensures Ended(next, r) && run.ContinuedBy(next)
      ensures r != FailedWith(DrawFault)
    {
      RotatedRecord(w);
      next := Audit(Record(RotateOp, name, true, RotatedMsg), run, w, RRotated, RFinal);
      r, next := AnswerRotated(name, next, w);
    }

    method ReplaceSecret(secret: Secret, ghost run: Run, ghost w: Work) returns (r: CallResult, ghost next: Run)
      requires secret == Secret(w.call.name, w.db, w.user, w.call.password)
      requires At(run, InCall(w, RSecret))
      modifies store`audit, secrets, secrets.dir, store.journal
      ensures Ended(next, r) && run.ContinuedBy(next)
      ensures r != FailedWith(DrawFault)
    {
      var ok;
      RotateSecretBranch(w);
      ok, next := WriteSecret(secret, run, w, RSecret, RRotated, RFailed(SecretFault));
      if ok {
        r, next := ReportRotated(secret.name, next, w);
      } else {
        r, next := ReportRotateFailure(secret.name, SecretFault, next, w);
      }
    }

    /** From the drawn password on: both accounts first, then the file. */
    method ApplyPassword(name: string, db: string, user: string, password: string, ghost run: Run, ghost w: Work)
      returns (r: CallResult, ghost next: Run)
      requires name == w.call.name && db == w.db && user == w.user
      requires password == w.call.password && IsSafePasswordLiteral(password)
      requires At(run, InCall(w, RAlter(Loopback)))
      modifies store`audit, mysql, secrets, secrets.dir, store.journal
      ensures Ended(next, r) && run.ContinuedBy(next)
      ensures r != FailedWith(DrawFault)
    {
      var ok;
      ok, next := SetUserPassword(user, password, run, w);
      if !ok {
        r, next := ReportRotateFailure(name, AlterFault, next, w);
        return;
      }
      r, next := ReplaceSecret(Secret(name, db, user, password), next, w);
    }

    method RotateFound(name: string, db: string, user: string, draw0: Option<seq<Byte>>, draw1: Option<seq<Byte>>,
                       ghost run: Run, ghost w: Work)
      returns (r: CallResult, ghost next: Run)
      requires draw0.Some? ==> |draw0.value| == 24
      requires draw1.Some? ==> |draw1.value| == 4
      requires name == w.call.name && db == w.db && user == w.user
      requires At(run, InCall(w, RDraw)) && run.call == w.call
      modifies store`audit, mysql, secrets, secrets.dir, store.journal
      ensures Ended(next, r) && run.StartsLike(next)
      ensures next.call == w.call ||
        (Drawn(next.call.password, draw0, draw1) && next.call == w.With(next.call.password).call)
      ensures r == FailedWith(DrawFault) ==> draw0.None? || draw1.None?
    {
      var password;
      password, next := DrawForRotate(draw0, draw1, run, w);
      if password.None? {
        r := FailedWith(DrawFault);
      } else {
        r, next := ApplyPassword(name, db, user, password.value, next, w.With(password.value));
      }
    }

    /** A lookup at the start of a Rotate or Delete, which takes its identifiers from the row it finds. */
    lemma FoundRowIsUsed(call: Call, row: Row)
      requires call.op.RotateOp? || call.op.DeleteOp?
      ensures Resume(Start(call), Found(row)) ==
              InCall(Work(call, row.database, row.user), if call.op.RotateOp? then RDraw else DDatabase)
    {
    }

    lemma NoRowToUse(call: Call)
      requires call.op.RotateOp? || call.op.DeleteOp?
      ensures Resume(Start(call), Missing) == Missed(call)
      ensures Resume(Start(call), Err).pc == Finished(FailedWith(LookupFault))
    {
    }

    /** A Rotate or Delete that found no row to take its identifiers from. */
    method ReportMissing(op: Operation, name: string, ghost run: Run, ghost call: Call)
      returns (r: CallResult, ghost next: Run)
      requires op == call.op && (op.RotateOp? || op.DeleteOp?) && name == call.name && At(run, Missed(call))
      modifies store`audit, store.journal
      ensures Ended(next, r) && run.ContinuedBy(next)
      ensures r == NotFound
    {
      ghost var audit := store.audit;
      ghost var o := store.WriteAudit(Record(op, name, false, FaultMsg(MissingFault)));
      FollowMissing(run, call, State(), audit, o);
      next := run.Then(o);
      r := NotFound;
    }

    /** Rotate, inside the service lock. */
    method RotateLocked(name: string, draw0: Option<seq<Byte>>, draw1: Option<seq<Byte>>)
      returns (r: CallResult, ghost run: Run)
      requires draw0.Some? ==> |draw0.value| == 24
      requires draw1.Some? ==> |draw1.value| == 4
      requires ValidName(name) && Wired() && secrets.Valid() && inflight.Holds(name)
      modifies store`audit, mysql, secrets, secrets.dir, store.journal
      ensures Ended(run, r) && Begins(run, old(State()), old(store.audit), old(store.journal.outcomes))
      ensures run.call == Call(RotateOp, name, run.call.password, allowDrop)
      ensures run.call.password == "" || Drawn(run.call.password, draw0, draw1)
      ensures r == FailedWith(DrawFault) ==> draw0.None? || draw1.None?
    {
      ghost var call := Call(RotateOp, name, "", allowDrop);
      run := Run(State(), store.audit, store.journal.outcomes, call, []);
      FollowNothing(run);
      var found;
      found, run := GetProject(name, run, Start(call));
      if found.Found? {
        FoundRowIsUsed(call, found.row);
        r, run := RotateFound(name, found.row.database, found.row.user, draw0, draw1, run,
                              Work(call, found.row.database, found.row.user));
      } else if found.Missing? {
        NoRowToUse(call);
        r, run := ReportMissing(RotateOp, name, run, call);
      } else {
        NoRowToUse(call);
        r := FailedWith(LookupFault);
      }
    }

    /** Rotate, taking and giving back the service lock. */
    method RotateInflight(name: string, draw0: Option<seq<Byte>>, draw1: Option<seq<Byte>>)
      returns (r: CallResult, ghost run: Run)
      requires draw0.Some? ==> |draw0.value| == 24
      requires draw1.Some? ==> |draw1.value| == 4
      requires ValidName(name) && Wired() && secrets.Valid() && inflight.Valid() && inflight.held == {}
      modifies store`audit, inflight, mysql, secrets, secrets.dir, store.journal
      ensures inflight.Valid() && inflight.held == {} && Ended(run, r)
      ensures Begins(run, old(State()), old(store.audit), old(store.journal.outcomes))
      ensures run.call == Call(RotateOp, name, run.call.password, allowDrop)
      ensures run.call.password == "" || Drawn(run.call.password, draw0, draw1)
      ensures inflight.table == Bind(old(inflight.table), name, old(inflight.next))
      ensures r == FailedWith(DrawFault) ==> draw0.None? || draw1.None?
    {
      ghost var locks: object := inflight;
      assert locks != mysql && locks != secrets && locks != secrets.dir;
      assert locks != store && locks != store.journal;
      ghost var before := State();
      var ioLock := inflight.Lock(name);
      assert State() == before;
      r, run := RotateLocked(name, draw0, draw1);
      inflight.Unlock(ioLock);
    }

    /** Rotate, with the same promise as Create. */
    method Rotate(name: string, draw0: Option<seq<Byte>>, draw1: Option<seq<Byte>>)
      returns (r: CallResult, ghost run: Run)
      requires Valid()
      requires draw0.Some? ==> |draw0.value| == 24
      requires draw1.Some? ==> |draw1.value| == 4
      modifies store`audit, inflight, mysql, secrets, secrets.dir, store.journal
      ensures Valid()
      ensures !ValidName(name) ==>
        && r == FailedWith(InvalidNameFault) && State() == old(State())
        && OnlyLogged(old(store.audit), store.audit, old(store.journal.outcomes), store.journal.outcomes,
                      Record(RotateOp, name, false, FaultMsg(InvalidNameFault)))
      ensures ValidName(name) ==>
        && Ended(run, r) && Begins(run, old(State()), old(store.audit), old(store.journal.outcomes))
        && run.call == Call(RotateOp, name, run.call.password, allowDrop)
        && (run.call.password == "" || Drawn(run.call.password, draw0, draw1))
      ensures ValidName(name) ==> inflight.table == Bind(old(inflight.table), name, old(inflight.next))
      ensures r == FailedWith(DrawFault) ==> draw0.None? || draw1.None?
    {
      run := Run(State(), store.audit, store.journal.outcomes, Call(RotateOp, name, "", allowDrop), []);
      if !ValidName(name) {
        r := Refuse(RotateOp, name, InvalidNameFault);
        return;
      }
      ghost var creating: object := store.creating;
      assert creating != mysql && creating != secrets && creating != secrets.dir;
      assert creating != store && creating != store.journal;
      r, run := RotateInflight(name, draw0, draw1);
    }

    // -------------------------------------------------------------- delete

    method ReportRemoved(name: string, ghost run: Run, ghost w: Work) returns (r: CallResult, ghost next: Run)
      requires At(run, InCall(w, DDeleted)) && name == w.call.name
      modifies store`audit, store.journal
      ensures Ended(next, r) && run.ContinuedBy(next)
    {
      DeletedRecord(w);
      next := Audit(Record(DeleteOp, name, true, DeletedMsg), run, w, DDeleted, Finished(Removed));
      r := Removed;
    }

    method ReportPartial(name: string, partial: seq<Fault>, ghost run: Run, ghost w: Work)
      returns (r: CallResult, ghost next: Run)
      requires At(run, InCall(w, DPartial(partial))) && name == w.call.name
      modifies store`audit, store.journal
      ensures Ended(next, r) && run.ContinuedBy(next)
    {
      PartialRecord(w, partial);
      next := Audit(Record(DeleteOp, name, false, PartialMsg(partial)), run, w, DPartial(partial),
                    Finished(PartialFailure(partial)));
      r := PartialFailure(partial);
    }

    /** Removes the row and reports, with what failed before. */
    method RemoveRow(name: string, partial: seq<Fault>, ghost run: Run, ghost w: Work)
      returns (r: CallResult, ghost next: Run)
      requires At(run, InCall(w, DRow(partial))) && name == w.call.name
      modifies store`rows, store`audit, store.journal
      ensures Ended(next, r) && run.ContinuedBy(next)
    {
      var ok;
      ghost var yes := if partial == [] then DDeleted else DPartial(partial);
      RowBranch(w, partial);
      ok, next := DeleteProject(name, run, w, DRow(partial), yes, DPartial(partial + [DeleteRowFault]));
      var faults := if ok then partial else partial + [DeleteRowFault];
      if |faults| > 0 {
        r, next := ReportPartial(name, faults, next, w);
      } else {
        r, next := ReportRemoved(name, next, w);
      }
    }

    method RemoveFileAndRow(name: string, partial: seq<Fault>, ghost run: Run, ghost w: Work)
      returns (r: CallResult, ghost next: Run)
      requires At(run, InCall(w, DSecret(partial))) && name == w.call.name
      modifies store`rows, store`audit, secrets, secrets.dir, store.journal
      ensures Ended(next, r) && run.ContinuedBy(next)
    {
      var ok;
      SecretBranch(w, partial);
      ok, next := RemoveSecret(name, run, w, DSecret(partial), DRow(partial), DRow(partial + [RemoveSecretFault]));
      r, next := RemoveRow(name, if ok then partial else partial + [RemoveSecretFault], next, w);
    }

    /** The four removals; each goes on whatever became of those before it. */
    method DeleteFound(name: string, db: string, user: string, ghost run: Run, ghost w: Work)
      returns (r: CallResult, ghost next: Run)
      requires name == w.call.name && db == w.db && user == w.user
      requires At(run, InCall(w, DDatabase))
      modifies store`rows, store`audit, mysql, secrets, secrets.dir, store.journal
      ensures Ended(next, r) && run.ContinuedBy(next)
    {
      var ok;
      var partial: seq<Fault> := [];
      DropBranch(w);
      ok, next := DropDatabase(db, run, w, DDatabase, DUser(Loopback, []), DUser(Loopback, [] + [DropDatabaseFault]));
      partial := if ok then partial else partial + [DropDatabaseFault];
      DropLoopbackBranch(w, partial);
      DropLocalhostBranch(w, partial);
      ok, next := DropUser(user, next, w, DUser(Loopback, partial), DUser(Localhost, partial),
                           DSecret(partial), DSecret(partial + [DropUserFault]));
      partial := if ok then partial else partial + [DropUserFault];
      r, next := RemoveFileAndRow(name, partial, next, w);
    }

    /** Delete, inside the service lock. */
    method DeleteLocked(name: string) returns (r: CallResult, ghost run: Run)
      requires ValidName(name) && Wired() && secrets.Valid() && inflight.Holds(name)
      modifies store`rows, store`audit, mysql, secrets, secrets.dir, store.journal
      ensures Ended(run, r)
      ensures Begins(run, old(State()), old(store.audit), old(store.journal.outcomes))
      ensures run.call == Call(DeleteOp, name, "", allowDrop)
    {
      ghost var call := Call(DeleteOp, name, "", allowDrop);
      run := Run(State(), store.audit, store.journal.outcomes, call, []);
      FollowNothing(run);
      var found;
      found, run := GetProject(name, run, Start(call));
      if found.Found? {
        FoundRowIsUsed(call, found.row);
        r, run := DeleteFound(name, found.row.database, found.row.user, run, Work(call, found.row.database, found.row.user));
      } else if found.Missing? {
        NoRowToUse(call);
        r, run := ReportMissing(DeleteOp, name, run, call);
      } else {
        NoRowToUse(call);
        r := FailedWith(LookupFault);
      }
    }

    /** Delete, taking and giving back the service lock. */
    method DeleteInflight(name: string) returns (r: CallResult, ghost run: Run)
      requires ValidName(name) && Wired() && secrets.Valid() && inflight.Valid() && inflight.held == {}
      modifies store`rows, store`audit, inflight, mysql, secrets, secrets.dir, store.journal
      ensures inflight.Valid() && inflight.held == {} && Ended(run, r)
      ensures Begins(run, old(State()), old(store.audit), old(store.journal.outcomes))
      ensures run.call == Call(DeleteOp, name, "", allowDrop)
      ensures inflight.table == Bind(old(inflight.table), name, old(inflight.next))
    {
      ghost var locks: object := inflight;
      assert locks != mysql && locks != secrets && locks != secrets.dir;
      assert locks != store && locks != store.journal;
      ghost var before := State();
      var ioLock := inflight.Lock(name);
      assert State() == before;
      r, run := DeleteLocked(name);
      inflight.Unlock(ioLock);
    }

    /** Delete, with the same promise; without a matching confirmation nothing but the log changes. */
    method Delete(name: string, confirm: string) returns (r: CallResult, ghost run: Run)
      requires Valid()
      modifies store`rows, store`audit, inflight, mysql, secrets, secrets.dir, store.journal
      ensures Valid()
      ensures !ValidName(name) ==> r == FailedWith(InvalidNameFault)
      ensures ValidName(name) && confirm == "" ==> r == FailedWith(ConfirmationMissing)
      ensures ValidName(name) && confirm != "" && confirm != name ==> r == FailedWith(ConfirmationMismatch)
      ensures !ValidName(name) || confirm != name ==>
        && State() == old(State())
        && OnlyLogged(old(store.audit), store.audit, old(store.journal.outcomes), store.journal.outcomes,
                      Record(DeleteOp, name, false, FaultMsg(r.fault)))
      ensures ValidName(name) && confirm == name ==>
        && Ended(run, r) && Begins(run, old(State()), old(store.audit), old(store.journal.outcomes))
        && run.call == Call(DeleteOp, name, "", allowDrop)
      ensures ValidName(name) && confirm == name ==> inflight.table == Bind(old(inflight.table), name, old(inflight.next))
    {
      run := Run(State(), store.audit, store.journal.outcomes, Call(DeleteOp, name, "", allowDrop), []);
      if !ValidName(name) {
        r := Refuse(DeleteOp, name, InvalidNameFault);
        return;
      }
      if confirm == "" {
        r := Refuse(DeleteOp, name, ConfirmationMissing);
        return;
      }
      if confirm != name {
        r := Refuse(DeleteOp, name, ConfirmationMismatch);
        return;
      }
      ghost var creating: object := store.creating;
      assert creating != mysql && creating != secrets && creating != secrets.dir;
      assert creating != store && creating != store.journal;
      r, run := DeleteInflight(name);
    }
  }
}

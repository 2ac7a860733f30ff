/**
 What the answer of a call tells: which record it leaves in the log, and when an
 error nevertheless means that the project is ready.
 */
module Answers {
  import opened Common
  import opened Stores
  import opened Calls

  // ---------------------------------------------------------------- what a call logs

  /** The record fits the answer. A Rotate that cannot read its row back has already logged a success. */
  predicate Tells(rec: Record, r: CallResult) {
    match r
    case Created(_) => rec.success && rec.message.CreatedMsg?
    case Idempotent(_) => rec.success && rec.message.IdempotentMsg?
    case Rotated(_) => rec.success && rec.message.RotatedMsg?
    case Removed => rec.success && rec.message.DeletedMsg?
    case PartialFailure(faults) => !rec.success && rec.message == PartialMsg(faults)
    case NotFound => (!rec.success && rec.message == FaultMsg(MissingFault)) || (rec.success && rec.message.RotatedMsg?)
    case FailedWith(f) => (!rec.success && rec.message == FaultMsg(f)) || (f.LookupFault? && rec.success && rec.message.RotatedMsg?)
    case Refused(_) => false
    case AlreadyExists => false
  }

  /** The answers a call gives without a record. */
  predicate Unlogged(r: CallResult) {
    r.Refused? || r.AlreadyExists? || (r.FailedWith? && (r.fault.LookupFault? || r.fault.DrawFault?))
  }

  /** What a call has logged when it is at this point; `sure` says that no audit write was lost. */
  predicate LoggedAt(t: Thread, log: seq<Record>, sure: bool) {
    match t.pc
    case RFinal => (!sure && log == []) || log == [Record(RotateOp, t.call.name, true, RotatedMsg)]
    case Finished(r) =>
      if log == [] then sure ==> Unlogged(r)
      else |log| == 1 && log[0].op == t.call.op && log[0].name == t.call.name && Tells(log[0], r)
    case _ => log == []
  }

  predicate OpFits(t: Thread) {
    match t.call.op
    case CreateOp => !OfRotate(t.pc) && !OfDelete(t.pc)
    case RotateOp => OfRotate(t.pc) || t.pc.Finished?
    case DeleteOp => OfDelete(t.pc) || t.pc.Finished?
  }

  predicate OfRotate(pc: Pc) {
    pc.RLookup? || pc.RMissing? || pc.RDraw? || pc.RAlter? || pc.RSecret? || pc.RRotated? || pc.RFinal? || pc.RFailed?
  }

  predicate OfDelete(pc: Pc) {
    pc.DLookup? || pc.DMissing? || pc.DDatabase? || pc.DUser? || pc.DSecret? || pc.DRow? || pc.DDeleted? || pc.DPartial?
  }

  predicate OfCreate(pc: Pc) {
    !OfRotate(pc) && !OfDelete(pc) && !pc.Finished?
  }

  /** The only points at which a call logs. */
  predicate Logs(pc: Pc) {
    || pc.CIdempotent? || pc.CConflict? || pc.CCreated? || pc.CFailed?
    || pc.RMissing? || pc.RRotated? || pc.RFailed? || pc.DMissing? || pc.DDeleted? || pc.DPartial?
  }

  lemma ResumeFits(t: Thread, r: Reply)
    requires Active(t) && OpFits(t)
    ensures OpFits(Resume(t, r))
  {
  }

  lemma QuietStepLogs(t: Thread, r: Reply, sure: bool)
    requires Active(t) && OpFits(t) && !Logs(t.pc) && !t.pc.RFinal?
    ensures LoggedAt(Resume(t, r), [], sure) && !ActionOf(t).WriteAudit?
  {
  }

  lemma CreateRecordLogs(t: Thread, r: Reply, o: Outcome, sure: bool)
    requires Active(t) && OpFits(t) && Logs(t.pc) && t.call.op.CreateOp?
    ensures LoggedAt(Resume(t, r), Emitted(ActionOf(t), o), sure && o.Applies())
  {
  }

  lemma MissingRecordLogs(t: Thread, r: Reply, o: Outcome, sure: bool)
    requires (t.pc.RMissing? && t.call.op.RotateOp?) || (t.pc.DMissing? && t.call.op.DeleteOp?)
    ensures LoggedAt(Resume(t, r), Emitted(ActionOf(t), o), sure && o.Applies())
  {
  }

  lemma RotatedRecordLogs(t: Thread, r: Reply, o: Outcome, sure: bool)
    requires t.pc.RRotated? && t.call.op.RotateOp?
    ensures LoggedAt(Resume(t, r), Emitted(ActionOf(t), o), sure && o.Applies())
  {
  }

  lemma RotateFailureLogs(t: Thread, r: Reply, o: Outcome, sure: bool)
    requires t.pc.RFailed? && t.call.op.RotateOp?
    ensures LoggedAt(Resume(t, r), Emitted(ActionOf(t), o), sure && o.Applies())
  {
  }

  lemma DeletedRecordLogs(t: Thread, r: Reply, o: Outcome, sure: bool)
    requires t.pc.DDeleted? && t.call.op.DeleteOp?
    ensures LoggedAt(Resume(t, r), Emitted(ActionOf(t), o), sure && o.Applies())
  {
  }

  lemma PartialRecordLogs(t: Thread, r: Reply, o: Outcome, sure: bool)
    requires t.pc.DPartial? && t.call.op.DeleteOp?
    ensures LoggedAt(Resume(t, r), Emitted(ActionOf(t), o), sure && o.Applies())
  {
  }

  lemma RecordStepLogs(t: Thread, r: Reply, o: Outcome, sure: bool)
    requires Active(t) && OpFits(t) && Logs(t.pc)
    ensures LoggedAt(Resume(t, r), Emitted(ActionOf(t), o), sure && o.Applies())
  {
    match t.pc
    case RMissing => MissingRecordLogs(t, r, o, sure);
    case DMissing => MissingRecordLogs(t, r, o, sure);
    case RRotated => RotatedRecordLogs(t, r, o, sure);
    case RFailed(_) => RotateFailureLogs(t, r, o, sure);
    case DDeleted => DeletedRecordLogs(t, r, o, sure);
    case DPartial(_) => PartialRecordLogs(t, r, o, sure);
    case _ => CreateRecordLogs(t, r, o, sure);
  }

  lemma ReadBackStepLogs(t: Thread, r: Reply, log: seq<Record>, sure: bool)
    requires Active(t) && OpFits(t) && t.pc.RFinal? && LoggedAt(t, log, sure)
    ensures LoggedAt(Resume(t, r), log, sure) && !ActionOf(t).WriteAudit?
  {
  }

  lemma StepLogs(t: Thread, r: Reply, o: Outcome, log: seq<Record>, sure: bool)
    requires Active(t) && OpFits(t) && LoggedAt(t, log, sure)
    ensures LoggedAt(Resume(t, r), log + Emitted(ActionOf(t), o), sure && (ActionOf(t).WriteAudit? ==> o.Applies()))
  {
    if t.pc.RFinal? {
      ReadBackStepLogs(t, r, log, sure);
      assert log + [] == log;
    } else if Logs(t.pc) {
      RecordStepLogs(t, r, o, sure);
      assert [] + Emitted(ActionOf(t), o) == Emitted(ActionOf(t), o);
    } else {
      QuietStepLogs(t, r, sure);
    }
  }

  /** Every audit write of the run took effect. */
  predicate RecordsKept(s: Stores, call: Call, os: seq<Outcome>) {
    os == [] ||
    (var p := RunCall(s, call, os[..|os| - 1]);
     RecordsKept(s, call, os[..|os| - 1]) && (Active(p.thread) && ActionOf(p.thread).WriteAudit? ==> os[|os| - 1].Applies()))
  }

  /**
   Whatever the outcomes, a call logs at most one record, about itself, and the
   record fits its answer; unless the write was lost, only a refusal, a failed
   lookup or a failed draw leaves no record.
   */
  lemma {:induction false} OneFittingRecord(s: Stores, call: Call, os: seq<Outcome>)
    ensures var p := RunCall(s, call, os);
      p.thread.call == call && OpFits(p.thread) && LoggedAt(p.thread, p.log, RecordsKept(s, call, os))
  {
    if os != [] {
      var p := RunCall(s, call, os[..|os| - 1]);
      OneFittingRecord(s, call, os[..|os| - 1]);
      if Active(p.thread) {
        var r := Perform(p.stores, ActionOf(p.thread), os[|os| - 1]).reply;
        ResumeFits(p.thread, r);
        StepLogs(p.thread, r, os[|os| - 1], p.log, RecordsKept(s, call, os[..|os| - 1]));
      }
    }
  }

  // ---------------------------------------------------------------- ready, and yet an error

  /** Before its status update a Create makes its `i`th statement at one point only, and the update is the eleventh. */
  predicate OnTime(i: nat, pc: Pc) {
    && (pc.CLookup? ==> i == 0) && (pc.CInsert? ==> i == 1) && (pc.CDraw? ==> i == 2) && (pc.CDatabase? ==> i == 3)
    && (pc.CUser? ==> i == if pc.host.Loopback? then 4 else 5)
    && (pc.CGrant? ==> i == if pc.host.Loopback? then 6 else 7)
    && (pc.CFlush? ==> i == 8) && (pc.CSecret? ==> i == 9) && (pc.CReady? ==> i == 10)
    && (pc.CMark? || pc.CUndoDatabase? ==> !ReadyAfter(pc.fault, true))
    && (pc == CFailed(StatusFault) || pc == Finished(FailedWith(StatusFault)) ==> i > 10)
  }

  /** With this fault a Create leaves a ready row; `updated` tells whether its status update took effect. */
  predicate ReadyAfter(f: Fault, updated: bool) {
    f.FinalFault? || (f.StatusFault? && updated)
  }

  predicate ReadyRow(row: Option<Row>) {
    row.Some? && row.value.status.Ready?
  }

  /** A row in error holds this fault. */
  predicate Records(row: Option<Row>, f: Fault) {
    row.Some? && row.value.status.Error? ==> row.value.lastError == f
  }

  /** What is known of the row at each point of a Create of a name without a row. */
  predicate RowAt(row: Option<Row>, pc: Pc, updated: bool) {
    match pc
    case CLookup => row.None?
    case CInsert => row.None?
    case CFinal => ReadyRow(row)
    case CCreated(_) => ReadyRow(row)
    case CFailed(f) => (ReadyRow(row) <==> ReadyAfter(f, updated)) && Records(row, f)
    case Finished(FailedWith(f)) => (ReadyRow(row) <==> ReadyAfter(f, updated)) && Records(row, f)
    case Finished(_) => ReadyRow(row)
    case CIdempotent(_) => false
    case CConflict(_) => false
    case CConflictLookup => false
    case _ => row.Some? && row.value.status.Pending?
  }

  lemma NextIsOnTime(i: nat, t: Thread, r: Reply)
    requires Active(t) && OfCreate(t.pc) && OnTime(i, t.pc)
    ensures OnTime(i + 1, NextPc(t, r)) && (OfCreate(NextPc(t, r)) || NextPc(t, r).Finished?)
  {
  }

  /** Statements that leave the row alone. */
  lemma RowStaysAt(i: nat, row: Option<Row>, t: Thread, r: Reply, updated: bool)
    requires Active(t) && OfCreate(t.pc) && !OnRow(ActionOf(t)) && RowAt(row, t.pc, updated) && OnTime(i, t.pc)
    ensures RowAt(row, NextPc(t, r), updated)
  {
  }

  lemma LookupAt(row: Option<Row>, t: Thread, o: Outcome, updated: bool)
    requires (t.pc.CLookup? || t.pc.CFinal?) && RowAt(row, t.pc, updated)
    ensures var e := RowStep(row, ActionOf(t), o); RowAt(e.cell, NextPc(t, e.reply), updated)
  {
  }

  lemma InsertAt(row: Option<Row>, t: Thread, o: Outcome, updated: bool)
    requires t.pc.CInsert? && RowAt(row, t.pc, updated)
    ensures var e := RowStep(row, ActionOf(t), o); RowAt(e.cell, NextPc(t, e.reply), updated)
  {
  }

  lemma UpdateAt(i: nat, row: Option<Row>, t: Thread, o: Outcome, updated: bool)
    requires OnTime(i, t.pc) && (t.pc.CReady? || t.pc.CMark?) && RowAt(row, t.pc, updated) && (t.pc.CReady? ==> updated == o.Applies())
    ensures var e := RowStep(row, ActionOf(t), o); RowAt(e.cell, NextPc(t, e.reply), updated)
  {
  }

  lemma StatementAt(i: nat, s: Stores, t: Thread, o: Outcome, updated: bool)
    requires OnTime(i, t.pc) && Active(t) && OfCreate(t.pc) && (t.pc.CReady? ==> updated == o.Applies())
    requires RowAt(Lookup(s.rows, t.call.name), t.pc, updated)
    ensures var e := Perform(s, ActionOf(t), o);
      RowAt(Lookup(e.stores.rows, t.call.name), NextPc(t, e.reply), updated)
  {
    var row := Lookup(s.rows, t.call.name);
    if t.pc.CLookup? || t.pc.CFinal? {
      LookupAt(row, t, o, updated);
    } else if t.pc.CInsert? {
      InsertAt(row, t, o, updated);
    } else if t.pc.CReady? || t.pc.CMark? {
      UpdateAt(i, row, t, o, updated);
    } else {
      NoRowStatement(t);
      RowStaysAt(i, row, t, Perform(s, ActionOf(t), o).reply, updated);
    }
  }

  lemma NoRowStatement(t: Thread)
    requires Active(t) && OfCreate(t.pc)
    requires !t.pc.CLookup? && !t.pc.CFinal? && !t.pc.CInsert? && !t.pc.CReady? && !t.pc.CMark? && !t.pc.CConflictLookup?
    ensures !OnRow(ActionOf(t))
  {
  }

  lemma UpdateNotYet(row: Option<Row>, i: nat, pc: Pc, u: bool, v: bool)
    requires OnTime(i, pc) && i <= 10 && RowAt(row, pc, u)
    ensures RowAt(row, pc, v)
  {
  }

  predicate Updated(os: seq<Outcome>) {
    |os| > 10 && os[10].Applies()
  }

  lemma {:induction false} RowOfCreate(s: Stores, call: Call, os: seq<Outcome>)
    requires call.op.CreateOp? && call.name !in s.rows
    ensures var p := RunCall(s, call, os);
      && OnTime(|os|, p.thread.pc) && (OfCreate(p.thread.pc) || p.thread.pc.Finished?) && p.thread.call == call
      && RowAt(Lookup(p.stores.rows, call.name), p.thread.pc, Updated(os))
  {
    if os != [] {
      var before, o := os[..|os| - 1], os[|os| - 1];
      var p := RunCall(s, call, before);
      RowOfCreate(s, call, before);
      if |before| <= 10 {
        UpdateNotYet(Lookup(p.stores.rows, call.name), |before|, p.thread.pc, Updated(before), Updated(os));
      }
      if Active(p.thread) {
        NextIsOnTime(|before|, p.thread, Perform(p.stores, ActionOf(p.thread), o).reply);
        StatementAt(|before|, p.stores, p.thread, o, Updated(os));
      }
    }
  }

  /**
   For every list of outcomes: a Create of a name without a row that ends with
   an error leaves a ready row exactly if the error is the failed read-back, or
   the status update that failed did take effect. A row it leaves in error
   stores the fault it answers.
   */
  lemma ErrorForReadyProject(s: Stores, call: Call, os: seq<Outcome>)
    requires call.op.CreateOp? && call.name !in s.rows
    requires var pc := RunCall(s, call, os).thread.pc; pc.Finished? && pc.result.FailedWith?
    ensures var p := RunCall(s, call, os);
      var f := p.thread.pc.result.fault;
      ReadyRow(Lookup(p.stores.rows, call.name)) <==>
        f.FinalFault? || (f.StatusFault? && |os| > 10 && os[10].Applies())
    ensures var p := RunCall(s, call, os);
      call.name in p.stores.rows && p.stores.rows[call.name].status.Error? ==>
        p.stores.rows[call.name].lastError == p.thread.pc.result.fault
  {
    RowOfCreate(s, call, os);
  }

  // ---------------------------------------------------------------- which statement failed

  /**
   The statement failed: it answered with an error, or it is the last lookup of a
   Create and found nothing. Audit writes do not count.
   */
  predicate Fails(t: Thread, r: Reply)
    requires Active(t)
  {
    !ActionOf(t).WriteAudit? && (r.Err? || (t.pc.CFinal? && !r.Found?))
  }

  /** The statements of a run that failed, in order. */
  function Failing(s: Stores, call: Call, os: seq<Outcome>): seq<Action> {
    if os == [] then []
    else
      var p := RunCall(s, call, os[..|os| - 1]);
      Failing(s, call, os[..|os| - 1]) + FailingNow(p, os[|os| - 1])
  }

  function FailingNow(p: Progress, o: Outcome): seq<Action> {
    if Active(p.thread) && Fails(p.thread, Perform(p.stores, ActionOf(p.thread), o).reply) then [ActionOf(p.thread)] else []
  }

  /** The fault is the one of this kind of statement. */
  predicate FaultOf(f: Fault, a: Action) {
    match f
    case LookupFault => a.GetProject?
    case InsertFault => a.CreateProject?
    case DrawFault => a.DrawPassword?
    case DatabaseFault => a.CreateDatabase?
    case UserFault => a.CreateUser?
    case GrantFault => a.GrantOn? || a.FlushPrivileges?
    case SecretFault => a.WriteSecret?
    case StatusFault => a.UpdateProjectStatus? && a.status.Ready?
    case FinalFault => a.GetProject?
    case AlterFault => a.AlterUser?
    case DropDatabaseFault => a.DropDatabase?
    case DropUserFault => a.DropUser?
    case RemoveSecretFault => a.RemoveSecret?
    case DeleteRowFault => a.DeleteProject?
    case _ => false
  }

  /** The list names all that failed, in order. */
  predicate NamesAll(faults: seq<Fault>, failing: seq<Action>) {
    |faults| == |failing| && forall i :: 0 <= i < |faults| ==> FaultOf(faults[i], failing[i])
  }

  predicate NamesFirst(f: Fault, failing: seq<Action>) {
    failing != [] && FaultOf(f, failing[0])
  }

  /** What a call knows of the statements that failed, when it is at this point. */
  predicate KnowsFailing(pc: Pc, failing: seq<Action>) {
    match pc
    case CUndoUser(_) => NamesFirst(GrantFault, failing)
    case CUndoDatabase(f) => NamesFirst(f, failing)
    case CMark(f) => NamesFirst(f, failing)
    case CFailed(f) => NamesFirst(f, failing)
    case RFailed(f) => NamesFirst(f, failing)
    case DUser(_, partial) => NamesAll(partial, failing)
    case DSecret(partial) => NamesAll(partial, failing)
    case DRow(partial) => NamesAll(partial, failing)
    case DPartial(partial) => NamesAll(partial, failing) && partial != []
    case Finished(r) =>
      if r.FailedWith? then NamesFirst(r.fault, failing)
      else if r.PartialFailure? then NamesAll(r.faults, failing) && r.faults != []
      else r.AlreadyExists? || failing == []
    case _ => failing == []
  }

  /** The replies a statement can have. */
  predicate CanReply(a: Action, r: Reply) {
    r.Err? || (if a.GetProject? then r.Found? || r.Missing? else r.Ok? || (a.CreateProject? && r.Conflict?))
  }

  lemma RepliesOf(s: Stores, a: Action, o: Outcome)
    ensures CanReply(a, Perform(s, a, o).reply)
  {
  }

  lemma QuietKnows(t: Thread, r: Reply, failing: seq<Action>)
    requires Active(t) && CanReply(ActionOf(t), r) && KnowsFailing(t.pc, failing)
    requires !Fails(t, r) && !OfDelete(t.pc)
    ensures KnowsFailing(NextPc(t, r), failing)
  {
  }

  lemma QuietDeleteKnows(t: Thread, r: Reply, failing: seq<Action>)
    requires OfDelete(t.pc) && CanReply(ActionOf(t), r) && KnowsFailing(t.pc, failing) && !Fails(t, r)
    ensures KnowsFailing(NextPc(t, r), failing)
  {
  }

  lemma FailureKnows(t: Thread, r: Reply, failing: seq<Action>)
    requires Active(t) && CanReply(ActionOf(t), r) && KnowsFailing(t.pc, failing)
    requires Fails(t, r) && !OfDelete(t.pc)
    ensures KnowsFailing(NextPc(t, r), failing + [ActionOf(t)])
  {
    assert failing != [] ==> (failing + [ActionOf(t)])[0] == failing[0];
  }

  lemma OneMoreFault(partial: seq<Fault>, failing: seq<Action>, f: Fault, a: Action)
    requires NamesAll(partial, failing) && FaultOf(f, a)
    ensures NamesAll(partial + [f], failing + [a])
  {
  }

  lemma RemovalKnows(t: Thread, r: Reply, failing: seq<Action>)
    requires OfDelete(t.pc) && CanReply(ActionOf(t), r) && KnowsFailing(t.pc, failing) && Fails(t, r)
    ensures KnowsFailing(NextPc(t, r), failing + [ActionOf(t)])
  {
    match t.pc
    case DLookup => assert failing == [];
    case DDatabase => OneMoreFault([], failing, DropDatabaseFault, ActionOf(t));
    case DUser(_, partial) => OneMoreFault(partial, failing, DropUserFault, ActionOf(t));
    case DSecret(partial) => OneMoreFault(partial, failing, RemoveSecretFault, ActionOf(t));
    case DRow(partial) => OneMoreFault(partial, failing, DeleteRowFault, ActionOf(t));
    case _ => assert false;
  }

  lemma StatementKnows(t: Thread, r: Reply, failing: seq<Action>)
    requires Active(t) && CanReply(ActionOf(t), r) && KnowsFailing(t.pc, failing)
    ensures KnowsFailing(NextPc(t, r), if Fails(t, r) then failing + [ActionOf(t)] else failing)
  {
    if OfDelete(t.pc) {
      if Fails(t, r) {
        RemovalKnows(t, r, failing);
      } else {
        QuietDeleteKnows(t, r, failing);
      }
    } else if Fails(t, r) {
      FailureKnows(t, r, failing);
    } else {
      QuietKnows(t, r, failing);
    }
  }

  /**
   For every list of outcomes: a call that ends with an error names the first
   statement that failed, a partial Delete names all that failed in order, and
   any other answer means that none did.
   */
  lemma {:induction false} AnswerNamesFailures(s: Stores, call: Call, os: seq<Outcome>)
    ensures KnowsFailing(RunCall(s, call, os).thread.pc, Failing(s, call, os))
  {
    if os != [] {
      AnswerNamesFailures(s, call, os[..|os| - 1]);
      var p := RunCall(s, call, os[..|os| - 1]);
      var failing := Failing(s, call, os[..|os| - 1]);
      if Active(p.thread) {
        var r := Perform(p.stores, ActionOf(p.thread), os[|os| - 1]).reply;
        RepliesOf(p.stores, ActionOf(p.thread), os[|os| - 1]);
        StatementKnows(p.thread, r, failing);
        assert failing + [] == failing;
      }
    }
  }

  // ---------------------------------------------------------------- a name without a row

  /** Where a Rotate or Delete of a name without a row is. */
  function WithoutRow(op: Operation, os: seq<Outcome>): Pc
    requires !op.CreateOp?
  {
    if os == [] then (if op.RotateOp? then RLookup else DLookup)
    else if !os[0].Done? then Finished(FailedWith(LookupFault))
    else if |os| == 1 then (if op.RotateOp? then RMissing else DMissing)
    else Finished(NotFound)
  }

  lemma WithoutRowStep(p: Progress, os: seq<Outcome>, o: Outcome)
    requires !p.thread.call.op.CreateOp? && p.thread.call.name !in p.stores.rows
    requires p.thread.pc == WithoutRow(p.thread.call.op, os) && Active(p.thread)
    ensures Step(p, o).stores == p.stores && Step(p, o).thread.pc == WithoutRow(p.thread.call.op, os + [o])
  {
    assert Assign(p.stores.rows, p.thread.call.name, None) == p.stores.rows;
  }

  lemma MissingProjectNext(s: Stores, call: Call, before: seq<Outcome>, o: Outcome)
    requires !call.op.CreateOp? && call.name !in s.rows
    requires var p := RunCall(s, call, before);
      p.stores == s && p.thread.call == call && p.thread.pc == WithoutRow(call.op, before)
    ensures var p := RunCall(s, call, before + [o]);
      p.stores == s && p.thread.call == call && p.thread.pc == WithoutRow(call.op, before + [o])
  {
    RunCallSnoc(s, call, before, o);
    var p := RunCall(s, call, before);
    if Active(p.thread) {
      WithoutRowStep(p, before, o);
    } else {
      assert before != [] && (before + [o])[0] == before[0];
    }
  }

  /** Whatever the outcomes, it changes no store and answers `NotFound`, or that the lookup failed. */
  lemma {:induction false} MissingProjectAnswer(s: Stores, call: Call, os: seq<Outcome>)
    requires !call.op.CreateOp? && call.name !in s.rows
    ensures var p := RunCall(s, call, os);
      p.stores == s && p.thread.call == call && p.thread.pc == WithoutRow(call.op, os)
  {
    if os != [] {
      var before, o := os[..|os| - 1], os[|os| - 1];
      assert before + [o] == os;
      MissingProjectAnswer(s, call, before);
      MissingProjectNext(s, call, before, o);
    }
  }
}

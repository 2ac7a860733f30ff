/**
 What fault-free calls do from any state a run can leave behind: how a broken
 project is repaired, which names a Create can bring to ready, and that a
 Create never touches a project that has a row.
 */
module Recovery {
  import opened Common
  import opened Names
  import opened EnvFile
  import opened Stores
  import opened Calls
  import opened Lifecycle
  import opened Failures
  import opened Rotation
  import opened System
  import opened Serial
  import opened Safety

  /** Enough successful outcomes for any call. */
  predicate FaultFree(os: seq<Outcome>) {
    |os| >= 14 && forall i :: 0 <= i < |os| ==> os[i].Done?
  }

  // ---------------------------------------------------------------- length bound

  lemma AllSucceed(os: seq<Outcome>)
    requires forall i :: 0 <= i < |os| ==> os[i].Done?
    ensures Successes(os) == |os|
  {
  }

  /** The state a fault-free Create of a name without a row leaves, leftovers or not. */
  lemma FaultFreeCreate(s: Stores, n: string, password: string, allow: bool, os: seq<Outcome>)
    requires ValidName(n) && n !in s.rows && password != "" && FaultFree(os)
    ensures var z, w, p := SliceOf(s, [], KeysOf(n)), IntentOf(n, password, allow), RunCall(s, Call(CreateOp, n, password, allow), os);
      && SliceOf(p.stores, p.log, KeysOf(n)) ==
         (if |n| <= 59 then CreateSlice(13, z, w)
          else CreateSlice(9, z, w).(row := Some(w.Pending().(status := Error, lastError := SecretFault))))
      && p.thread.pc ==
         Finished(if |n| <= 59 then Created(w.Pending().(status := Ready)) else FailedWith(SecretFault))
  {
    RunCallKeepsCall(s, Call(CreateOp, n, password, allow), os);
    AllSucceed(os);
    CreateRuns(s, n, password, allow, os);
  }

  /**
   A fault-free Create of a name without a row ends ready exactly up to 59
   characters; a longer name ends in error with its database and both accounts
   still there. A leftover account makes no difference.
   */
  lemma LengthBound(s: Stores, n: string, password: string, allow: bool, os: seq<Outcome>)
    requires ValidName(n) && n !in s.rows && password != "" && FaultFree(os)
    ensures var p := RunCall(s, Call(CreateOp, n, password, allow), os);
      && n in p.stores.rows
      && (|n| <= 59 <==> p.stores.rows[n].status.Ready?)
      && (|n| <= 59 ==>
          && p.thread.pc == Finished(Created(p.stores.rows[n]))
          && Lookup(p.stores.files, n) == Some(Secret(n, DatabaseName(n), UserName(n), password)))
      && (|n| > 59 ==>
          && p.thread.pc == Finished(FailedWith(SecretFault))
          && p.stores.rows[n].status.Error? && p.stores.rows[n].lastError == SecretFault)
      && DatabaseName(n) in p.stores.dbs
      && (UserName(n), Loopback) in p.stores.accounts && (UserName(n), Localhost) in p.stores.accounts
  {
    FaultFreeCreate(s, n, password, allow, os);
  }

  // ---------------------------------------------------------------- repair

  /** Delete the project if it has a row. */
  function Cleared(s: Stores, n: string, allow: bool, os: seq<Outcome>): Stores {
    if n in s.rows then RunCall(s, Call(DeleteOp, n, "", allow), os).stores else s
  }

  /** Delete if there is a row, then Create, then Rotate. */
  function Repaired(s: Stores, n: string, first: string, second: string, allow: bool, os: seq<Outcome>): Progress {
    var created := RunCall(Cleared(s, n, allow, os), Call(CreateOp, n, first, allow), os);
    RunCall(created.stores, Call(RotateOp, n, second, allow), os)
  }

  /** A fault-free Delete removes the row, the database, both accounts and the secret file. */
  lemma DeleteRemovesEverything(s: Stores, n: string, allow: bool, os: seq<Outcome>)
    requires n in s.rows && RowKeyed(Lookup(s.rows, n), KeysOf(n)) && FaultFree(os)
    ensures var p := RunCall(s, Call(DeleteOp, n, "", allow), os);
      && p.thread.pc == Finished(Removed)
      && n !in p.stores.rows && DatabaseName(n) !in p.stores.dbs && n !in p.stores.files
      && (UserName(n), Loopback) !in p.stores.accounts && (UserName(n), Localhost) !in p.stores.accounts
  {
    RunCallKeepsCall(s, Call(DeleteOp, n, "", allow), os);
    DeleteRuns(s, n, allow, os);
  }

  /** The repaired project: ready, with both accounts and a file that opens them. */
  predicate InService(s: Stores, n: string, password: string) {
    && n in s.rows && s.rows[n].status.Ready?
    && Lookup(s.files, n) == Some(Secret(n, DatabaseName(n), UserName(n), password))
    && HasPassword(Lookup(s.accounts, (UserName(n), Loopback)), password)
    && HasPassword(Lookup(s.accounts, (UserName(n), Localhost)), password)
  }

  lemma RotateCreated(s: Stores, n: string, password: string, allow: bool, os: seq<Outcome>)
    requires ValidName(n) && |n| <= 59 && password != "" && FaultFree(os)
    requires RowKeyed(Lookup(s.rows, n), KeysOf(n)) && n in s.rows && s.rows[n].status.Ready?
    requires (UserName(n), Loopback) in s.accounts && (UserName(n), Localhost) in s.accounts
    ensures var p := RunCall(s, Call(RotateOp, n, password, allow), os);
      InService(p.stores, n, password) && p.thread.pc == Finished(Rotated(p.stores.rows[n]))
  {
    RotateRestoresAgreement(s, n, password, allow, os);
  }

  /** The same chain from any stores in which the project's row names its own identifiers. */
  lemma RepairFromStores(s: Stores, n: string, first: string, second: string, allow: bool, os: seq<Outcome>)
    requires ValidName(n) && |n| <= 59 && first != "" && second != "" && FaultFree(os)
    requires RowKeyed(Lookup(s.rows, n), KeysOf(n))
    ensures var p := Repaired(s, n, first, second, allow, os);
      InService(p.stores, n, second) && p.thread.pc == Finished(Rotated(p.stores.rows[n]))
  {
    if n in s.rows {
      DeleteRemovesEverything(s, n, allow, os);
    }
    var cleared := Cleared(s, n, allow, os);
    LengthBound(cleared, n, first, allow, os);
    RunKeyed(cleared, Call(CreateOp, n, first, allow), os);
    RotateCreated(RunCall(cleared, Call(CreateOp, n, first, allow), os).stores, n, second, allow, os);
  }

  /**
   From every reachable state, whatever failures, orphans and crashes led to
   it: a fault-free Delete (if there is a row), Create and Rotate end with a
   ready project whose file opens both accounts.
   */
  lemma Recovery(names: set<string>, s: Sys, n: string, first: string, second: string, os: seq<Outcome>)
    requires RunsTo(names, s) && n in names
    requires ValidName(n) && |n| <= 59 && first != "" && second != "" && FaultFree(os)
    ensures var p := Repaired(s.stores, n, first, second, s.allowDrop, os);
      InService(p.stores, n, second) && p.thread.pc == Finished(Rotated(p.stores.rows[n]))
  {
    RunsAreSafe(names, s);
    assert NameSafe(s, n);
    RepairFromStores(s.stores, n, first, second, s.allowDrop, os);
  }

  // ---------------------------------------------------------------- existing rows

  /** Where a Create of a name with this row may be. */
  predicate LeavesAlone(pc: Pc, row: Row) {
    match pc
    case CLookup => true
    case CIdempotent(r) => r == row && row.status.Ready?
    case Finished(Idempotent(r)) => r == row && row.status.Ready?
    case Finished(Refused(status)) => status == row.status && !status.Ready?
    case Finished(FailedWith(f)) => f.LookupFault?
    case _ => false
  }

  lemma ExistingProjectStep(p: Progress, o: Outcome, row: Row)
    requires Active(p.thread) && LeavesAlone(p.thread.pc, row) && Lookup(p.stores.rows, p.thread.call.name) == Some(row)
    ensures Step(p, o).stores == p.stores && LeavesAlone(Step(p, o).thread.pc, row)
  {
    assert Assign(p.stores.rows, p.thread.call.name, Some(row)) == p.stores.rows;
  }

  /**
   Whatever the outcomes, a Create of a name that has a row changes no store;
   it answers with the ready row, refuses, or could not look the row up.
   */
  lemma {:induction false} CreateLeavesExistingProject(s: Stores, call: Call, os: seq<Outcome>)
    requires call.op.CreateOp? && call.name in s.rows
    ensures var p := RunCall(s, call, os);
      p.stores == s && p.thread.call == call && LeavesAlone(p.thread.pc, s.rows[call.name])
  {
    if os != [] {
      CreateLeavesExistingProject(s, call, os[..|os| - 1]);
      var p := RunCall(s, call, os[..|os| - 1]);
      if Active(p.thread) {
        ExistingProjectStep(p, os[|os| - 1], s.rows[call.name]);
      }
    }
  }
}

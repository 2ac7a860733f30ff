/**
 Create and Delete for every list of outcomes: the exact state and answer of a
 run, whichever statements fail, with or without having taken effect, rollbacks
 included.
 */
module Failures {
  import opened Common
  import opened Names
  import opened EnvFile
  import opened Stores
  import opened Calls
  import opened Lifecycle
  import opened Serial

  // ---------------------------------------------------------------- running one slice

  /** The rest of a call, on its project's slice. */
  function RunFrom(s: Slice, t: Thread, os: seq<Outcome>): SliceProgress
    decreases |os|
  {
    if os == [] || !Active(t) then SliceProgress(s, t)
    else
      var n := SliceStep(s, t, os[0]);
      RunFrom(n.slice, n.thread, os[1..])
  }

  lemma RunOne(s: Slice, t: Thread, os: seq<Outcome>)
    requires Active(t) && os != []
    ensures var n := SliceStep(s, t, os[0]); RunFrom(s, t, os) == RunFrom(n.slice, n.thread, os[1..])
  {
  }

  function ProgressOf(p: Progress): SliceProgress {
    SliceProgress(SliceOf(p.stores, p.log, KeysOf(p.thread.call.name)), p.thread)
  }

  /** The project sees each statement of its call as a step on its slice. */
  lemma StepOnSlice(s: Stores, call: Call, os: seq<Outcome>, o: Outcome)
    requires RowKeyed(Lookup(s.rows, call.name), KeysOf(call.name)) && Active(RunCall(s, call, os).thread)
    ensures var p := RunCall(s, call, os);
      ProgressOf(RunCall(s, call, os + [o])) == SliceStep(ProgressOf(p).slice, p.thread, o)
  {
    var p := RunCall(s, call, os);
    RunCallSnoc(s, call, os, o);
    RunKeyed(s, call, os);
    RunCallKeepsCall(s, call, os);
    KeyedOwns(p.thread, KeysOf(call.name));
    OwnerSeesEffect(p.stores, p.log, KeysOf(call.name), ActionOf(p.thread), o);
  }

  lemma {:induction false} EndedStays(s: Stores, call: Call, before: seq<Outcome>, after: seq<Outcome>)
    requires !Active(RunCall(s, call, before).thread)
    ensures RunCall(s, call, before + after) == RunCall(s, call, before)
  {
    if after == [] {
      assert before + after == before;
    } else {
      var init := after[..|after| - 1];
      EndedStays(s, call, before, init);
      assert before + after == (before + init) + [after[|after| - 1]];
      RunCallSnoc(s, call, before + init, after[|after| - 1]);
    }
  }

  /** A run of a call is a run of its first statements and the rest on its slice. */
  lemma {:induction false} RunsOn(s: Stores, call: Call, before: seq<Outcome>, after: seq<Outcome>)
    requires RowKeyed(Lookup(s.rows, call.name), KeysOf(call.name))
    ensures var p := ProgressOf(RunCall(s, call, before));
      ProgressOf(RunCall(s, call, before + after)) == RunFrom(p.slice, p.thread, after)
    decreases |after|
  {
    if after == [] {
      assert before + after == before;
    } else if Active(RunCall(s, call, before).thread) {
      assert before + after == (before + [after[0]]) + after[1..];
      StepOnSlice(s, call, before, after[0]);
      RunsOn(s, call, before + [after[0]], after[1..]);
    } else {
      EndedStays(s, call, before, after);
    }
  }

  // ---------------------------------------------------------------- the rest of a failing create

  function InError(row: Option<Row>, f: Fault): Option<Row> {
    if row.Some? then Some(row.value.(status := Error, lastError := f)) else None
  }

  /** The row after the statement that marks it. */
  function Marked(row: Option<Row>, f: Fault, o: Outcome): Option<Row> {
    if o.Applies() then InError(row, f) else row
  }

  function EndsWith(s: Slice, t: Thread, r: CallResult): SliceProgress {
    SliceProgress(s, t.(pc := Finished(r)))
  }

  lemma FailedRuns(s: Slice, t: Thread, f: Fault, os: seq<Outcome>)
    requires t.pc == CFailed(f) && os != []
    ensures RunFrom(s, t, os) == EndsWith(s, t, FailedWith(f))
  {
    RunOne(s, t, os);
  }

  lemma MarkRuns(s: Slice, t: Thread, f: Fault, os: seq<Outcome>)
    requires t.pc == CMark(f) && |os| >= 2
    ensures RunFrom(s, t, os) == EndsWith(s.(row := Marked(s.row, f, os[0])), t, FailedWith(f))
  {
    MarkStep(s, FRESH, t, os[0]);
    RunOne(s, t, os);
    if !f.DrawFault? {
      FailedRuns(s.(row := Marked(s.row, f, os[0])), t.(pc := CFailed(f)), f, os[1..]);
    }
  }

  lemma UndoDatabaseStep(s: Slice, t: Thread, f: Fault, o: Outcome)
    requires t.pc == CUndoDatabase(f)
    ensures SliceStep(s, t, o) == SliceProgress(s.(db := s.db && !o.Applies()), t.(pc := CMark(f)))
  {
  }

  /** The slice after the rollback of a failed user creation, whatever becomes of its statements. */
  function DatabaseUndone(s: Slice, f: Fault, os: seq<Outcome>): Slice
    requires |os| >= 2
  {
    s.(db := s.db && !os[0].Applies(), row := Marked(s.row, f, os[1]))
  }

  lemma UndoDatabaseRuns(s: Slice, t: Thread, f: Fault, os: seq<Outcome>)
    requires t.pc == CUndoDatabase(f) && |os| >= 3
    ensures RunFrom(s, t, os) == EndsWith(DatabaseUndone(s, f, os), t, FailedWith(f))
  {
    UndoDatabaseStep(s, t, f, os[0]);
    RunOne(s, t, os);
    MarkRuns(s.(db := s.db && !os[0].Applies()), t.(pc := CMark(f)), f, os[1..]);
  }

  /** The slice after the rollback of a failed grant: the second host is left alone if the first drop fails. */
  function GrantUndone(s: Slice, os: seq<Outcome>): Slice
    requires |os| >= 4
  {
    var u := s.(loopback := if os[0].Applies() then None else s.loopback);
    if !os[0].Done? then DatabaseUndone(u, GrantFault, os[1..])
    else DatabaseUndone(u.(localhost := if os[1].Applies() then None else s.localhost), GrantFault, os[2..])
  }

  lemma UndoLocalhostRuns(s: Slice, t: Thread, os: seq<Outcome>)
    requires t.pc == CUndoUser(Localhost) && |os| >= 4
    ensures var u := s.(localhost := if os[0].Applies() then None else s.localhost);
      RunFrom(s, t, os) == EndsWith(DatabaseUndone(u, GrantFault, os[1..]), t, FailedWith(GrantFault))
  {
    var u := s.(localhost := if os[0].Applies() then None else s.localhost);
    UndoUserStep(s, FRESH, t, os[0]);
    RunOne(s, t, os);
    UndoDatabaseRuns(u, t.(pc := CUndoDatabase(GrantFault)), GrantFault, os[1..]);
  }

  lemma UndoUserRuns(s: Slice, t: Thread, os: seq<Outcome>)
    requires t.pc == CUndoUser(Loopback) && |os| >= 5
    ensures RunFrom(s, t, os) == EndsWith(GrantUndone(s, os), t, FailedWith(GrantFault))
  {
    var u := s.(loopback := if os[0].Applies() then None else s.loopback);
    UndoUserStep(s, FRESH, t, os[0]);
    RunOne(s, t, os);
    if os[0].Done? {
      UndoLocalhostRuns(u, t.(pc := CUndoUser(Localhost)), os[1..]);
      assert os[1..][1..] == os[2..];
    } else {
      UndoDatabaseRuns(u, t.(pc := CUndoDatabase(GrantFault)), GrantFault, os[1..]);
    }
  }

  // ---------------------------------------------------------------- a create without failures so far

  /** What a Create writes. */
  datatype Intent = Intent(keys: Keys, password: string, allowDrop: bool)
  {
    function Pending(): Row {
      Row(keys.db, keys.user, Status.Pending, NoFault)
    }

    /** An account that exists is kept as it is. */
    function Ensured(a: Option<Account>): Option<Account> {
      if a.Some? then a else Some(Account(password, {}))
    }

    function WithGrants(a: Option<Account>): Option<Account> {
      if a.Some? then Some(Granted(a.value, keys.db, Privileges(allowDrop))) else None
    }

    function File(): Secret {
      Secret(keys.name, keys.db, keys.user, password)
    }
  }

  function IntentOf(n: string, password: string, allow: bool): Intent {
    Intent(KeysOf(n), password, allow)
  }

  /** The slice after `i` successful statements of a Create that began in `z`, where nothing but the row need be missing. */
  function CreateSlice(i: nat, z: Slice, w: Intent): Slice {
    z.(row := if i < 2 then z.row else if i < 11 then Some(w.Pending()) else Some(w.Pending().(status := Ready)),
       db := z.db || i >= 4,
       loopback := if i < 5 then z.loopback else if i < 7 then w.Ensured(z.loopback) else w.WithGrants(w.Ensured(z.loopback)),
       localhost := if i < 6 then z.localhost else if i < 8 then w.Ensured(z.localhost) else w.WithGrants(w.Ensured(z.localhost)),
       file := if i < 10 then z.file else Some(w.File()),
       listed := z.listed || i >= 13)
  }

  /** Its next statement. */
  function CreatePath(i: nat, w: Intent): Pc {
    if i < 4 then (if i == 0 then CLookup else if i == 1 then CInsert else if i == 2 then CDraw else CDatabase)
    else if i < 6 then CUser(if i == 4 then Loopback else Localhost)
    else if i < 8 then CGrant(if i == 6 then Loopback else Localhost)
    else if i == 8 then CFlush
    else if i == 9 then CSecret
    else if i == 10 then CReady
    else if i == 11 then CFinal
    else if i == 12 then CCreated(w.Pending().(status := Ready))
    else Finished(Created(w.Pending().(status := Ready)))
  }

  function CreateThread(i: nat, w: Intent): Thread {
    Thread(Call(CreateOp, w.keys.name, w.password, w.allowDrop), w.keys.db, w.keys.user, CreatePath(i, w))
  }

  lemma CreateStepBeforeUsers(i: nat, z: Slice, w: Intent)
    requires i < 4 && z.row.None?
    ensures SliceStep(CreateSlice(i, z, w), CreateThread(i, w), Done)
      == SliceProgress(CreateSlice(i + 1, z, w), CreateThread(i + 1, w))
  {
  }

  lemma CreateStepUsers(i: nat, z: Slice, w: Intent)
    requires 4 <= i < 6
    ensures SliceStep(CreateSlice(i, z, w), CreateThread(i, w), Done)
      == SliceProgress(CreateSlice(i + 1, z, w), CreateThread(i + 1, w))
  {
  }

  lemma CreateStepGrants(i: nat, z: Slice, w: Intent)
    requires 6 <= i < 9
    ensures SliceStep(CreateSlice(i, z, w), CreateThread(i, w), Done)
      == SliceProgress(CreateSlice(i + 1, z, w), CreateThread(i + 1, w))
  {
  }

  lemma CreateStepSecret(i: nat, z: Slice, w: Intent)
    requires i == 9 && Accepts(w.File())
    ensures SliceStep(CreateSlice(i, z, w), CreateThread(i, w), Done)
      == SliceProgress(CreateSlice(i + 1, z, w), CreateThread(i + 1, w))
  {
  }

  lemma CreateStepAfterSecret(i: nat, z: Slice, w: Intent)
    requires 10 <= i < 13
    ensures SliceStep(CreateSlice(i, z, w), CreateThread(i, w), Done)
      == SliceProgress(CreateSlice(i + 1, z, w), CreateThread(i + 1, w))
  {
  }

  lemma CreatePathStep(i: nat, z: Slice, w: Intent)
    requires i < 13 && z.row.None? && (i >= 9 ==> Accepts(w.File()))
    ensures SliceStep(CreateSlice(i, z, w), CreateThread(i, w), Done)
      == SliceProgress(CreateSlice(i + 1, z, w), CreateThread(i + 1, w))
  {
    if i < 4 {
      CreateStepBeforeUsers(i, z, w);
    } else if i < 6 {
      CreateStepUsers(i, z, w);
    } else if i < 9 {
      CreateStepGrants(i, z, w);
    } else if i == 9 {
      CreateStepSecret(i, z, w);
    } else {
      CreateStepAfterSecret(i, z, w);
    }
  }

  lemma CreateReachesNext(s: Stores, call: Call, z: Slice, w: Intent, before: seq<Outcome>)
    requires z == SliceOf(s, [], KeysOf(call.name)) && w == IntentOf(call.name, call.password, call.allowDrop)
    requires ValidName(call.name) && call.password != "" && call.name !in s.rows
    requires |before| < (if |call.name| <= 59 then 13 else 9)
    requires ProgressOf(RunCall(s, call, before)) == SliceProgress(CreateSlice(|before|, z, w), CreateThread(|before|, w))
    ensures ProgressOf(RunCall(s, call, before + [Done])) ==
      SliceProgress(CreateSlice(|before| + 1, z, w), CreateThread(|before| + 1, w))
  {
    AcceptsUpTo59(call.name, call.password);
    CreatePathStep(|before|, z, w);
    StepOnSlice(s, call, before, Done);
  }

  /** A Create of a name without a row, whatever else is left of the project; only a name that fits gets past the secret. */
  lemma {:induction false} CreateReaches(s: Stores, n: string, password: string, allow: bool, os: seq<Outcome>)
    requires ValidName(n) && password != "" && n !in s.rows
    requires |os| <= (if |n| <= 59 then 13 else 9) && forall i :: 0 <= i < |os| ==> os[i].Done?
    ensures var z, w := SliceOf(s, [], KeysOf(n)), IntentOf(n, password, allow);
      ProgressOf(RunCall(s, Call(CreateOp, n, password, allow), os)) == SliceProgress(CreateSlice(|os|, z, w), CreateThread(|os|, w))
  {
    var z, w, call := SliceOf(s, [], KeysOf(n)), IntentOf(n, password, allow), Call(CreateOp, n, password, allow);
    if os == [] {
      assert CreateSlice(0, z, w) == z;
    } else {
      var before := os[..|os| - 1];
      CreateReaches(s, n, password, allow, before);
      assert before + [Done] == os;
      CreateReachesNext(s, call, z, w, before);
    }
  }

  // ---------------------------------------------------------------- every run of a create

  /** State and answer of a call that has ended. */
  datatype Ending = Ending(slice: Slice, result: CallResult)

  function EndingOf(p: SliceProgress): Ending
    requires !Active(p.thread)
  {
    Ending(p.slice, p.thread.pc.result)
  }

  /** How many outcomes there are before the first failure. */
  function Successes(os: seq<Outcome>): (j: nat)
    ensures j <= |os| && (forall i :: 0 <= i < j ==> os[i].Done?) && (j < |os| ==> os[j].Failed?)
  {
    if os == [] || !os[0].Done? then 0 else 1 + Successes(os[1..])
  }

  /** The account of a host after the failing GRANT statement `j`. */
  function Regranted(j: nat, at: nat, a: Option<Account>, o: Outcome, w: Intent): Option<Account> {
    if at < j || (at == j && o.Applies()) then w.WithGrants(w.Ensured(a)) else w.Ensured(a)
  }

  /**
   The end of a Create that began in `z`, without a row, whose first `j`
   statements succeed; `os` are the outcomes from the next one on. The statements
   are: 0 look up, 1 insert, 2 draw, 3 create the database, 4 and 5 the accounts,
   6 and 7 grant, 8 flush, 9 write the secret, 10 update the status, 11 look up,
   12 log.
   */
  function CreateEnding(j: nat, os: seq<Outcome>, z: Slice, w: Intent): Ending
    requires j + |os| >= 14
  {
    var s := CreateSlice(j, z, w);
    if j == 0 then Ending(z, FailedWith(LookupFault))
    else if j == 1 then Ending(z.(row := if os[0].Applies() then Some(w.Pending()) else None), FailedWith(InsertFault))
    else if j == 2 then Ending(s.(row := Marked(s.row, DrawFault, os[1])), FailedWith(DrawFault))
    else if j == 3 then
      Ending(s.(db := z.db || os[0].Applies(), row := Marked(s.row, DatabaseFault, os[1])), FailedWith(DatabaseFault))
    else if j == 4 then
      var u := s.(loopback := if os[0].Applies() then w.Ensured(z.loopback) else z.loopback);
      Ending(DatabaseUndone(u, UserFault, os[1..]), FailedWith(UserFault))
    else if j == 5 then
      var u := s.(localhost := if os[0].Applies() then w.Ensured(z.localhost) else z.localhost);
      Ending(DatabaseUndone(u, UserFault, os[1..]), FailedWith(UserFault))
    else if j < 9 then
      var u := s.(loopback := Regranted(j, 6, z.loopback, os[0], w), localhost := Regranted(j, 7, z.localhost, os[0], w));
      Ending(GrantUndone(u, os[1..]), FailedWith(GrantFault))
    else if j == 9 then Ending(s.(row := Marked(s.row, SecretFault, os[1])), FailedWith(SecretFault))
    else if j == 10 then Ending(CreateSlice(if os[0].Applies() then 11 else 10, z, w), FailedWith(StatusFault))
    else if j == 11 then Ending(s, FailedWith(FinalFault))
    else if j == 12 then
      Ending(s.(listed := z.listed || os[0].Applies()), Created(w.Pending().(status := Ready)))
    else Ending(CreateSlice(13, z, w), Created(w.Pending().(status := Ready)))
  }

  /** The rest of the call does this. */
  ghost predicate CreateEnds(j: nat, os: seq<Outcome>, z: Slice, w: Intent)
    requires j + |os| >= 14
  {
    var e := CreateEnding(j, os, z, w);
    RunFrom(CreateSlice(j, z, w), CreateThread(j, w), os) == EndsWith(e.slice, CreateThread(j, w), e.result)
  }

  lemma LookupFaultEnds(os: seq<Outcome>, z: Slice, w: Intent)
    requires |os| >= 14 && os[0].Failed?
    ensures CreateEnds(0, os, z, w)
  {
    RunOne(CreateSlice(0, z, w), CreateThread(0, w), os);
    assert CreateSlice(0, z, w) == z;
  }

  lemma InsertFaultEnds(os: seq<Outcome>, z: Slice, w: Intent)
    requires |os| >= 13 && os[0].Failed? && z.row.None?
    ensures CreateEnds(1, os, z, w)
  {
    var n := SliceStep(CreateSlice(1, z, w), CreateThread(1, w), os[0]);
    RunOne(CreateSlice(1, z, w), CreateThread(1, w), os);
    FailedRuns(n.slice, n.thread, InsertFault, os[1..]);
  }

  lemma DrawFaultEnds(os: seq<Outcome>, z: Slice, w: Intent)
    requires |os| >= 12 && os[0].Failed?
    ensures CreateEnds(2, os, z, w)
  {
    var n := SliceStep(CreateSlice(2, z, w), CreateThread(2, w), os[0]);
    RunOne(CreateSlice(2, z, w), CreateThread(2, w), os);
    MarkRuns(n.slice, n.thread, DrawFault, os[1..]);
  }

  lemma DatabaseFaultEnds(os: seq<Outcome>, z: Slice, w: Intent)
    requires |os| >= 11 && os[0].Failed?
    ensures CreateEnds(3, os, z, w)
  {
    var n := SliceStep(CreateSlice(3, z, w), CreateThread(3, w), os[0]);
    RunOne(CreateSlice(3, z, w), CreateThread(3, w), os);
    MarkRuns(n.slice, n.thread, DatabaseFault, os[1..]);
  }

  lemma UserFaultEnds(j: nat, os: seq<Outcome>, z: Slice, w: Intent)
    requires 4 <= j < 6 && j + |os| >= 14 && os[0].Failed?
    ensures CreateEnds(j, os, z, w)
  {
    var s, t := CreateSlice(j, z, w), CreateThread(j, w);
    CreateUserStep(s, FRESH, t, os[0]);
    RunOne(s, t, os);
    var n := SliceStep(s, t, os[0]);
    UndoDatabaseRuns(n.slice, n.thread, UserFault, os[1..]);
  }

  lemma GrantFaultStep(j: nat, z: Slice, w: Intent, o: Outcome)
    requires 6 <= j < 9 && o.Failed?
    ensures SliceStep(CreateSlice(j, z, w), CreateThread(j, w), o) ==
      SliceProgress(CreateSlice(j, z, w).(loopback := Regranted(j, 6, z.loopback, o, w),
                                          localhost := Regranted(j, 7, z.localhost, o, w)),
                    CreateThread(j, w).(pc := CUndoUser(Loopback)))
  {
  }

  lemma GrantFaultEnds(j: nat, os: seq<Outcome>, z: Slice, w: Intent)
    requires 6 <= j < 9 && j + |os| >= 14 && os[0].Failed?
    ensures CreateEnds(j, os, z, w)
  {
    GrantFaultStep(j, z, w, os[0]);
    RunOne(CreateSlice(j, z, w), CreateThread(j, w), os);
    var n := SliceStep(CreateSlice(j, z, w), CreateThread(j, w), os[0]);
    UndoUserRuns(n.slice, n.thread, os[1..]);
  }

  lemma SecretFaultStep(z: Slice, w: Intent, o: Outcome)
    requires o.Failed? || !Accepts(w.File())
    ensures SliceStep(CreateSlice(9, z, w), CreateThread(9, w), o)
      == SliceProgress(CreateSlice(9, z, w), CreateThread(9, w).(pc := CMark(SecretFault)))
  {
  }

  lemma SecretFaultEnds(os: seq<Outcome>, z: Slice, w: Intent)
    requires |os| >= 5 && (os[0].Failed? || !Accepts(w.File()))
    ensures CreateEnds(9, os, z, w)
  {
    SecretFaultStep(z, w, os[0]);
    RunOne(CreateSlice(9, z, w), CreateThread(9, w), os);
    var n := SliceStep(CreateSlice(9, z, w), CreateThread(9, w), os[0]);
    MarkRuns(n.slice, n.thread, SecretFault, os[1..]);
  }

  lemma StatusFaultStep(j: nat, z: Slice, w: Intent, o: Outcome)
    requires 10 <= j < 12 && o.Failed?
    ensures SliceStep(CreateSlice(j, z, w), CreateThread(j, w), o) ==
      SliceProgress(CreateSlice(if j == 11 || o.Applies() then 11 else 10, z, w),
                    CreateThread(j, w).(pc := CFailed(if j == 10 then StatusFault else FinalFault)))
  {
  }

  lemma StatusFaultEnds(j: nat, os: seq<Outcome>, z: Slice, w: Intent)
    requires 10 <= j < 12 && j + |os| >= 14 && os[0].Failed?
    ensures CreateEnds(j, os, z, w)
  {
    StatusFaultStep(j, z, w, os[0]);
    RunOne(CreateSlice(j, z, w), CreateThread(j, w), os);
    var n := SliceStep(CreateSlice(j, z, w), CreateThread(j, w), os[0]);
    FailedRuns(n.slice, n.thread, if j == 10 then StatusFault else FinalFault, os[1..]);
  }

  lemma CreatedRecordStep(z: Slice, w: Intent, o: Outcome)
    ensures SliceStep(CreateSlice(12, z, w), CreateThread(12, w), o) ==
      EndsWith(CreateSlice(12, z, w).(listed := z.listed || o.Applies()), CreateThread(12, w),
               Created(w.Pending().(status := Ready)))
  {
  }

  lemma CreatedRecordEnds(os: seq<Outcome>, z: Slice, w: Intent)
    requires |os| >= 2
    ensures CreateEnds(12, os, z, w)
  {
    CreatedRecordStep(z, w, os[0]);
    RunOne(CreateSlice(12, z, w), CreateThread(12, w), os);
  }

  lemma SuccessEnds(os: seq<Outcome>, z: Slice, w: Intent)
    requires os != []
    ensures CreateEnds(13, os, z, w)
  {
  }

  /** The first statement that fails, or that the writer refuses. */
  lemma FirstFaultEnds(j: nat, os: seq<Outcome>, z: Slice, w: Intent)
    requires j <= 13 && j + |os| >= 14 && z.row.None?
    requires j < 13 ==> os[0].Failed? || (j == 9 && !Accepts(w.File()))
    ensures CreateEnds(j, os, z, w)
  {
    if j < 3 {
      if j == 0 {
        LookupFaultEnds(os, z, w);
      } else if j == 1 {
        InsertFaultEnds(os, z, w);
      } else {
        DrawFaultEnds(os, z, w);
      }
    } else if j == 3 {
      DatabaseFaultEnds(os, z, w);
    } else if j < 6 {
      UserFaultEnds(j, os, z, w);
    } else if j < 9 {
      GrantFaultEnds(j, os, z, w);
    } else if j == 9 {
      SecretFaultEnds(os, z, w);
    } else if j < 12 {
      StatusFaultEnds(j, os, z, w);
    } else if j == 12 {
      CreatedRecordEnds(os, z, w);
    } else {
      SuccessEnds(os, z, w);
    }
  }

  /** How many statements of a Create succeed: all thirteen at most, nine for a name that does not fit. */
  function Passed(n: string, os: seq<Outcome>): nat {
    var j, limit := Successes(os), if |n| <= 59 then 13 else 9;
    if j < limit then j else limit
  }

  lemma CutAt(os: seq<Outcome>, j: nat) returns (before: seq<Outcome>, after: seq<Outcome>)
    requires j <= |os|
    ensures before == os[..j] && after == os[j..] && os == before + after
  {
    before, after := os[..j], os[j..];
  }

  /**
   For every list of outcomes, every valid name and whatever is left over of the
   project: a Create of a name without a row ends exactly as `CreateEnding` says
   of the number of statements that succeed and the outcomes after these. In
   particular a failed grant is rolled back as far as the rollback's own
   statements succeed, a failed user creation may leave accounts behind, and a
   failed read-back reports an error for a ready project.
   */
  lemma CreateRuns(s: Stores, n: string, password: string, allow: bool, os: seq<Outcome>)
    requires ValidName(n) && password != "" && n !in s.rows && |os| >= 14
    ensures var z, w, j := SliceOf(s, [], KeysOf(n)), IntentOf(n, password, allow), Passed(n, os);
      var p := ProgressOf(RunCall(s, Call(CreateOp, n, password, allow), os));
      !Active(p.thread) && EndingOf(p) == CreateEnding(j, os[j..], z, w)
  {
    var z, w, j := SliceOf(s, [], KeysOf(n)), IntentOf(n, password, allow), Passed(n, os);
    var before, after := CutAt(os, j);
    CreateReaches(s, n, password, allow, before);
    AcceptsUpTo59(n, password);
    RunsOn(s, Call(CreateOp, n, password, allow), before, after);
    FirstFaultEnds(j, after, z, w);
  }

  function WithNewPassword(a: Option<Account>, password: string): Option<Account> {
    if a.Some? then Some(a.value.(password := password)) else None
  }

  // ---------------------------------------------------------------- every run of a delete

  /** The list of failures after one more removal. */
  function Noted(partial: seq<Fault>, o: Outcome, f: Fault): seq<Fault> {
    if o.Done? then partial else partial + [f]
  }

  /** The cell after a removal. */
  function Gone<V>(was: Option<V>, o: Outcome): Option<V> {
    if o.Applies() then None else was
  }

  function DeleteResult(partial: seq<Fault>): CallResult {
    if partial == [] then Removed else PartialFailure(partial)
  }

  /** The slice after the row's removal and the record, which lists the name no more only for a complete removal. */
  function RowRemoved(s: Slice, partial: seq<Fault>, os: seq<Outcome>): Slice
    requires |os| >= 2
  {
    s.(row := Gone(s.row, os[0]), listed := s.listed && !(Noted(partial, os[0], DeleteRowFault) == [] && os[1].Applies()))
  }

  lemma DeletedRuns(s: Slice, t: Thread, partial: seq<Fault>, os: seq<Outcome>)
    requires t.pc == (if partial == [] then DDeleted else DPartial(partial)) && os != []
    ensures RunFrom(s, t, os) ==
      EndsWith(s.(listed := s.listed && !(partial == [] && os[0].Applies())), t, DeleteResult(partial))
  {
    RunOne(s, t, os);
  }

  lemma RowStepOf(s: Slice, t: Thread, partial: seq<Fault>, o: Outcome)
    requires t.pc == DRow(partial)
    ensures var q := Noted(partial, o, DeleteRowFault);
      SliceStep(s, t, o) == SliceProgress(s.(row := Gone(s.row, o)), t.(pc := if q == [] then DDeleted else DPartial(q)))
  {
  }

  lemma RowRuns(s: Slice, t: Thread, partial: seq<Fault>, os: seq<Outcome>)
    requires t.pc == DRow(partial) && |os| >= 2
    ensures RunFrom(s, t, os) ==
      EndsWith(RowRemoved(s, partial, os), t, DeleteResult(Noted(partial, os[0], DeleteRowFault)))
  {
    RowStepOf(s, t, partial, os[0]);
    RunOne(s, t, os);
    var n := SliceStep(s, t, os[0]);
    DeletedRuns(n.slice, n.thread, Noted(partial, os[0], DeleteRowFault), os[1..]);
  }

  lemma SecretRuns(s: Slice, t: Thread, partial: seq<Fault>, os: seq<Outcome>)
    requires t.pc == DSecret(partial) && |os| >= 3
    ensures var q := Noted(partial, os[0], RemoveSecretFault);
      RunFrom(s, t, os) ==
        EndsWith(RowRemoved(s.(file := Gone(s.file, os[0])), q, os[1..]), t, DeleteResult(Noted(q, os[1], DeleteRowFault)))
  {
    RemoveSecretStep(s, FRESH, t, os[0]);
    RunOne(s, t, os);
    var n := SliceStep(s, t, os[0]);
    RowRuns(n.slice, n.thread, Noted(partial, os[0], RemoveSecretFault), os[1..]);
  }

  /** The end of a Delete from the drop of the accounts on; a failure on the first host skips the second. */
  function UsersDropped(s: Slice, partial: seq<Fault>, os: seq<Outcome>): Ending
    requires |os| >= 5
  {
    var k := if os[0].Done? then 2 else 1;
    var q := if os[0].Done? then Noted(partial, os[1], DropUserFault) else partial + [DropUserFault];
    var r := Noted(q, os[k], RemoveSecretFault);
    var u := s.(loopback := Gone(s.loopback, os[0]),
                localhost := if os[0].Done? then Gone(s.localhost, os[1]) else s.localhost,
                file := Gone(s.file, os[k]));
    Ending(RowRemoved(u, r, os[k + 1..]), DeleteResult(Noted(r, os[k + 1], DeleteRowFault)))
  }

  lemma LocalhostRuns(s: Slice, t: Thread, partial: seq<Fault>, os: seq<Outcome>)
    requires t.pc == DUser(Localhost, partial) && |os| >= 4
    ensures var q := Noted(partial, os[0], DropUserFault);
      var r := Noted(q, os[1], RemoveSecretFault);
      var u := s.(localhost := Gone(s.localhost, os[0]), file := Gone(s.file, os[1]));
      RunFrom(s, t, os) == EndsWith(RowRemoved(u, r, os[2..]), t, DeleteResult(Noted(r, os[2], DeleteRowFault)))
  {
    DropUserStep(s, FRESH, t, os[0]);
    RunOne(s, t, os);
    var n := SliceStep(s, t, os[0]);
    SecretRuns(n.slice, n.thread, Noted(partial, os[0], DropUserFault), os[1..]);
    assert os[1..][1..] == os[2..];
  }

  lemma LoopbackRuns(s: Slice, t: Thread, partial: seq<Fault>, os: seq<Outcome>)
    requires t.pc == DUser(Loopback, partial) && |os| >= 5
    ensures var e := UsersDropped(s, partial, os);
      RunFrom(s, t, os) == EndsWith(e.slice, t, e.result)
  {
    DropUserStep(s, FRESH, t, os[0]);
    RunOne(s, t, os);
    var n := SliceStep(s, t, os[0]);
    if os[0].Done? {
      LocalhostRuns(n.slice, n.thread, partial, os[1..]);
      assert os[1..][2..] == os[3..];
    } else {
      SecretRuns(n.slice, n.thread, partial + [DropUserFault], os[1..]);
      assert os[1..][1..] == os[2..];
    }
  }

  lemma DropDatabaseStepOf(s: Slice, t: Thread, o: Outcome)
    requires t.pc.DDatabase?
    ensures SliceStep(s, t, o) ==
      SliceProgress(s.(db := s.db && !o.Applies()), t.(pc := DUser(Loopback, Noted([], o, DropDatabaseFault))))
  {
  }

  lemma DatabaseRuns(s: Slice, t: Thread, os: seq<Outcome>)
    requires t.pc.DDatabase? && |os| >= 6
    ensures var e := UsersDropped(s.(db := s.db && !os[0].Applies()), Noted([], os[0], DropDatabaseFault), os[1..]);
      RunFrom(s, t, os) == EndsWith(e.slice, t, e.result)
  {
    DropDatabaseStepOf(s, t, os[0]);
    RunOne(s, t, os);
    var n := SliceStep(s, t, os[0]);
    LoopbackRuns(n.slice, n.thread, Noted([], os[0], DropDatabaseFault), os[1..]);
  }

  /** The end of a Delete that began in `z`, with a row. */
  function DeleteEnding(z: Slice, os: seq<Outcome>): Ending
    requires |os| >= 7
  {
    if !os[0].Done? then Ending(z, FailedWith(LookupFault))
    else UsersDropped(z.(db := z.db && !os[1].Applies()), Noted([], os[1], DropDatabaseFault), os[2..])
  }

  lemma LookupStepOf(z: Slice, k: Keys, call: Call, o: Outcome)
    requires call.op.DeleteOp? && z.row.Some? && RowKeyed(z.row, k)
    ensures SliceStep(z, Start(call), o) ==
      SliceProgress(z, if o.Done? then Thread(call, k.db, k.user, DDatabase)
                       else Start(call).(pc := Finished(FailedWith(LookupFault))))
  {
  }

  lemma FoundRuns(z: Slice, k: Keys, call: Call, os: seq<Outcome>)
    requires call.op.DeleteOp? && z.row.Some? && RowKeyed(z.row, k) && |os| >= 7
    ensures var p := RunFrom(z, Start(call), os);
      !Active(p.thread) && EndingOf(p) == DeleteEnding(z, os)
  {
    LookupStepOf(z, k, call, os[0]);
    RunOne(z, Start(call), os);
    if os[0].Done? {
      DatabaseRuns(z, Thread(call, k.db, k.user, DDatabase), os[1..]);
      assert os[1..][1..] == os[2..];
    }
  }

  /** The failures of a Delete, in order; statement `k` removes the file. */
  function DeleteFaults(os: seq<Outcome>, k: nat): seq<Fault>
    requires k + 1 < |os| && 3 < |os|
  {
    (if os[1].Done? then [] else [DropDatabaseFault]) + (if os[2].Done? && os[3].Done? then [] else [DropUserFault])
    + (if os[k].Done? then [] else [RemoveSecretFault]) + (if os[k + 1].Done? then [] else [DeleteRowFault])
  }

  lemma DeleteEndingIs(z: Slice, os: seq<Outcome>)
    requires |os| >= 7 && os[0].Done?
    ensures var k := if os[2].Done? then 4 else 3;
      var faults := DeleteFaults(os, k);
      DeleteEnding(z, os) ==
        Ending(z.(db := z.db && !os[1].Applies(),
                  loopback := if os[2].Applies() then None else z.loopback,
                  localhost := if os[2].Done? && os[3].Applies() then None else z.localhost,
                  file := if os[k].Applies() then None else z.file,
                  row := if os[k + 1].Applies() then None else z.row,
                  listed := z.listed && !(os[6].Applies() && faults == [])),
               if faults == [] then Removed else PartialFailure(faults))
  {
    var k := if os[2].Done? then 4 else 3;
    var p := Noted([], os[1], DropDatabaseFault);
    var q := if os[2].Done? then Noted(p, os[3], DropUserFault) else p + [DropUserFault];
    var r := Noted(q, os[k], RemoveSecretFault);
    NotedIs(p, os[1], [], DropDatabaseFault);
    NotedIs(r, os[k], q, RemoveSecretFault);
    NotedIs(Noted(r, os[k + 1], DeleteRowFault), os[k + 1], r, DeleteRowFault);
    assert q == p + (if os[2].Done? && os[3].Done? then [] else [DropUserFault]);
    assert Noted(r, os[k + 1], DeleteRowFault) == DeleteFaults(os, k);
  }

  lemma NotedIs(noted: seq<Fault>, o: Outcome, partial: seq<Fault>, f: Fault)
    requires noted == Noted(partial, o, f)
    ensures noted == partial + (if o.Done? then [] else [f])
  {
  }

  /**
   For every list of outcomes: each removal of a Delete happens exactly if its
   own statement takes effect, whatever became of those before it (but for the
   second account, which a failure on the first skips), the row goes even after
   a failed drop, and the answer lists the failures in order.
   */
  lemma DeleteRuns(s: Stores, n: string, allow: bool, os: seq<Outcome>)
    requires n in s.rows && RowKeyed(Lookup(s.rows, n), KeysOf(n)) && |os| >= 7
    ensures var z, p := SliceOf(s, [], KeysOf(n)), ProgressOf(RunCall(s, Call(DeleteOp, n, "", allow), os));
      var k := if os[2].Done? then 4 else 3;
      var faults := DeleteFaults(os, k);
      && !Active(p.thread)
      && (!os[0].Done? ==> p.slice == z && p.thread.pc.result == FailedWith(LookupFault))
      && (os[0].Done? ==>
          && p.slice == z.(db := z.db && !os[1].Applies(),
                           loopback := if os[2].Applies() then None else z.loopback,
                           localhost := if os[2].Done? && os[3].Applies() then None else z.localhost,
                           file := if os[k].Applies() then None else z.file,
                           row := if os[k + 1].Applies() then None else z.row)
          && p.thread.pc.result == if faults == [] then Removed else PartialFailure(faults))
  {
    var call := Call(DeleteOp, n, "", allow);
    RunsOn(s, call, [], os);
    assert [] + os == os;
    FoundRuns(SliceOf(s, [], KeysOf(n)), KeysOf(n), call, os);
    if os[0].Done? {
      DeleteEndingIs(SliceOf(s, [], KeysOf(n)), os);
    }
  }
}

/**
 Rotate for every list of outcomes: where the call is, what it has changed,
 when the change is atomic, and what a Rotate without failures achieves.
 */
module Rotation {
  import opened Common
  import opened Names
  import opened EnvFile
  import opened Stores
  import opened Calls
  import opened Lifecycle
  import opened Failures

  // ---------------------------------------------------------------- how far a rotate gets

  /** Whether statement `i` of a Rotate that began in `s` lets the call go on. */
  predicate GoesOn(i: nat, o: Outcome, s: Slice, w: Intent) {
    && (i < 5 ==> o.Done?)
    && (i == 0 ==> s.row.Some?)
    && (i == 2 ==> s.loopback.Some?)
    && (i == 3 ==> s.localhost.Some?)
    && (i == 4 ==> Accepts(w.File()))
  }

  /** How many statements in a row, up to the secret write, let the call go on. */
  function Reach(s: Slice, w: Intent, os: seq<Outcome>): (r: nat)
    ensures r <= 5 && r <= |os|
  {
    if os == [] then 0
    else
      var r := Reach(s, w, os[..|os| - 1]);
      if r == |os| - 1 && r < 5 && GoesOn(r, os[r], s, w) then r + 1 else r
  }

  lemma {:induction false} ReachCounts(s: Slice, w: Intent, os: seq<Outcome>, i: nat)
    requires i <= 5
    ensures i <= Reach(s, w, os) <==> i <= |os| && forall j :: 0 <= j < i ==> GoesOn(j, os[j], s, w)
  {
    if os != [] {
      var before := os[..|os| - 1];
      ReachCounts(s, w, before, i);
      if i == |os| {
        ReachCounts(s, w, before, i - 1);
      }
    }
  }

  /** Statement `i` was made and took effect. */
  predicate Took(i: nat, s: Slice, w: Intent, os: seq<Outcome>) {
    i <= Reach(s, w, os) && i < |os| && os[i].Applies()
  }

  /** The slice after these outcomes: one account each for an ALTER that took effect, the file for a complete write. */
  function RotateSlice(s: Slice, w: Intent, os: seq<Outcome>): Slice {
    s.(loopback := if Took(2, s, w, os) then WithNewPassword(s.loopback, w.password) else s.loopback,
       localhost := if Took(3, s, w, os) then WithNewPassword(s.localhost, w.password) else s.localhost,
       file := if Reach(s, w, os) == 5 then Some(w.File()) else s.file)
  }

  /** The point of a Rotate whose statements so far all let it go on. */
  function RotatePath(s: Slice, os: seq<Outcome>): Pc
    requires |os| >= 5 ==> s.row.Some?
  {
    var i := |os|;
    if i < 2 then (if i == 0 then RLookup else RDraw)
    else if i < 4 then RAlter(if i == 2 then Loopback else Localhost)
    else if i == 4 then RSecret
    else if i == 5 then RRotated
    else if i == 6 then RFinal
    else Finished(if os[6].Done? then Rotated(s.row.value) else FailedWith(LookupFault))
  }

  /** The point of a Rotate that statement `r` stopped; the failures from the first ALTER on are logged. */
  function StoppedAt(r: nat, s: Slice, os: seq<Outcome>): Pc
    requires r < 5 && r < |os|
  {
    if r == 0 then
      if !os[0].Done? then Finished(FailedWith(LookupFault)) else if |os| == 1 then RMissing else Finished(NotFound)
    else if r == 1 then Finished(FailedWith(DrawFault))
    else
      var f := if r == 4 then SecretFault else AlterFault;
      if |os| == r + 1 then RFailed(f) else Finished(FailedWith(f))
  }

  function RotatePc(s: Slice, w: Intent, os: seq<Outcome>): Pc {
    var r := Reach(s, w, os);
    ReachCounts(s, w, os, r);
    assert r == 5 ==> GoesOn(0, os[0], s, w);
    if r == |os| || r == 5 then RotatePath(s, os) else StoppedAt(r, s, os)
  }

  function RotateCall(w: Intent): Call {
    Call(RotateOp, w.keys.name, w.password, w.allowDrop)
  }

  /** State and thread of a Rotate after these outcomes. */
  function RotateState(s: Slice, w: Intent, os: seq<Outcome>): SliceProgress {
    var call, pc := RotateCall(w), RotatePc(s, w, os);
    SliceProgress(RotateSlice(s, w, os),
                  if Reach(s, w, os) == 0 then Thread(call, "", "", pc) else Thread(call, w.keys.db, w.keys.user, pc))
  }

  // ---------------------------------------------------------------- every run of a rotate

  /** One more outcome, seen from the definitions. */
  lemma OneMore(s: Slice, w: Intent, os: seq<Outcome>, o: Outcome)
    ensures var r := Reach(s, w, os);
      Reach(s, w, os + [o]) == if r == |os| && r < 5 && GoesOn(r, o, s, w) then r + 1 else r
    ensures forall i :: 0 <= i < |os| ==> (os + [o])[i] == os[i]
  {
    assert (os + [o])[..|os|] == os;
  }

  lemma LookupStep(s: Slice, w: Intent, os: seq<Outcome>, o: Outcome)
    requires os == [] && RowKeyed(s.row, w.keys)
    ensures SliceStep(RotateSlice(s, w, os), RotateState(s, w, os).thread, o) == RotateState(s, w, os + [o])
  {
    OneMore(s, w, os, o);
  }

  lemma DrawStep(s: Slice, w: Intent, os: seq<Outcome>, o: Outcome)
    requires |os| == 1 && Reach(s, w, os) == 1
    ensures SliceStep(RotateSlice(s, w, os), RotateState(s, w, os).thread, o) == RotateState(s, w, os + [o])
  {
    OneMore(s, w, os, o);
  }

  lemma AlterLoopbackStep(s: Slice, w: Intent, os: seq<Outcome>, o: Outcome)
    requires |os| == 2 && Reach(s, w, os) == 2
    ensures SliceStep(RotateSlice(s, w, os), RotateState(s, w, os).thread, o) == RotateState(s, w, os + [o])
  {
    OneMore(s, w, os, o);
  }

  lemma AlterLocalhostStep(s: Slice, w: Intent, os: seq<Outcome>, o: Outcome)
    requires |os| == 3 && Reach(s, w, os) == 3
    ensures SliceStep(RotateSlice(s, w, os), RotateState(s, w, os).thread, o) == RotateState(s, w, os + [o])
  {
    OneMore(s, w, os, o);
  }

  lemma SecretStep(s: Slice, w: Intent, os: seq<Outcome>, o: Outcome)
    requires |os| == 4 && Reach(s, w, os) == 4
    ensures SliceStep(RotateSlice(s, w, os), RotateState(s, w, os).thread, o) == RotateState(s, w, os + [o])
  {
    OneMore(s, w, os, o);
  }

  lemma RecordStep(s: Slice, w: Intent, os: seq<Outcome>, o: Outcome)
    requires |os| == 5 && Reach(s, w, os) == 5
    ensures SliceStep(RotateSlice(s, w, os), RotateState(s, w, os).thread, o) == RotateState(s, w, os + [o])
  {
    OneMore(s, w, os, o);
  }

  lemma ReadBackStep(s: Slice, w: Intent, os: seq<Outcome>, o: Outcome)
    requires |os| == 6 && Reach(s, w, os) == 5 && s.row.Some?
    ensures SliceStep(RotateSlice(s, w, os), RotateState(s, w, os).thread, o) == RotateState(s, w, os + [o])
  {
    OneMore(s, w, os, o);
  }

  lemma MissingStep(s: Slice, w: Intent, os: seq<Outcome>, o: Outcome)
    requires |os| == 1 && Reach(s, w, os) == 0 && Active(RotateState(s, w, os).thread)
    ensures SliceStep(RotateSlice(s, w, os), RotateState(s, w, os).thread, o) == RotateState(s, w, os + [o])
  {
    OneMore(s, w, os, o);
    assert RotatePc(s, w, os) == RMissing;
  }

  lemma FailedStep(s: Slice, w: Intent, os: seq<Outcome>, o: Outcome)
    requires var r := Reach(s, w, os); 2 <= r < 5 && |os| == r + 1
    ensures SliceStep(RotateSlice(s, w, os), RotateState(s, w, os).thread, o) == RotateState(s, w, os + [o])
  {
    OneMore(s, w, os, o);
    RotateFailureAuditStep(RotateSlice(s, w, os), FRESH, RotateState(s, w, os).thread, o);
  }

  lemma EndedStays(s: Slice, w: Intent, os: seq<Outcome>, o: Outcome)
    requires !Active(RotateState(s, w, os).thread)
    ensures RotateState(s, w, os + [o]) == RotateState(s, w, os)
  {
    OneMore(s, w, os, o);
  }

  lemma RotateStep(s: Slice, w: Intent, os: seq<Outcome>, o: Outcome)
    requires RowKeyed(s.row, w.keys) && Active(RotateState(s, w, os).thread)
    ensures SliceStep(RotateSlice(s, w, os), RotateState(s, w, os).thread, o) == RotateState(s, w, os + [o])
  {
    var r := Reach(s, w, os);
    ReachCounts(s, w, os, r);
    if r < |os| && r < 5 {
      if r == 0 {
        MissingStep(s, w, os, o);
      } else {
        FailedStep(s, w, os, o);
      }
    } else if |os| == 0 {
      LookupStep(s, w, os, o);
    } else if |os| == 1 {
      DrawStep(s, w, os, o);
    } else if |os| == 2 {
      AlterLoopbackStep(s, w, os, o);
    } else if |os| == 3 {
      AlterLocalhostStep(s, w, os, o);
    } else if |os| == 4 {
      SecretStep(s, w, os, o);
    } else if |os| == 5 {
      RecordStep(s, w, os, o);
    } else {
      assert GoesOn(0, os[0], s, w);
      ReadBackStep(s, w, os, o);
    }
  }

  /**
   For every list of outcomes, whatever the row's status, whichever accounts
   exist and however long the valid name: the state and the point of the Rotate
   are those of `RotateState`.
   */
  lemma {:induction false} RotateRuns(s: Stores, n: string, password: string, allow: bool, os: seq<Outcome>)
    requires RowKeyed(Lookup(s.rows, n), KeysOf(n))
    ensures ProgressOf(RunCall(s, Call(RotateOp, n, password, allow), os))
      == RotateState(SliceOf(s, [], KeysOf(n)), IntentOf(n, password, allow), os)
  {
    var z, w, call := SliceOf(s, [], KeysOf(n)), IntentOf(n, password, allow), Call(RotateOp, n, password, allow);
    if os == [] {
      assert RotateSlice(z, w, []) == z;
    } else {
      var before, o := os[..|os| - 1], os[|os| - 1];
      RotateRuns(s, n, password, allow, before);
      assert before + [o] == os;
      if Active(RunCall(s, call, before).thread) {
        StepOnSlice(s, call, before, o);
        RotateStep(z, w, before, o);
      } else {
        RunCallSnoc(s, call, before, o);
        EndedStays(z, w, before, o);
      }
    }
  }

  // ---------------------------------------------------------------- atomicity

  predicate Unrotated(before: Slice, after: Slice) {
    after.loopback == before.loopback && after.localhost == before.localhost && after.file == before.file
  }

  predicate FullyRotated(after: Slice, w: Intent) {
    && HasPassword(after.loopback, w.password) && HasPassword(after.localhost, w.password)
    && after.file == Some(w.File())
  }

  /** The drawn password is not one that is in use. */
  predicate IsNew(password: string, s: Slice) {
    && !HasPassword(s.loopback, password) && !HasPassword(s.localhost, password)
    && (s.file.Some? ==> s.file.value.password != password)
  }

  /** The first ALTER was reached and took effect. */
  predicate AlterTookEffect(s: Slice, os: seq<Outcome>) {
    |os| > 2 && os[0].Done? && s.row.Some? && os[1].Done? && s.loopback.Some? && os[2].Applies()
  }

  /** Both accounts exist, the secret fits, and both ALTERs and the secret write succeed. */
  predicate NothingInTheWay(s: Slice, n: string, os: seq<Outcome>) {
    s.loopback.Some? && s.localhost.Some? && |n| <= 59 && |os| > 4 && os[2].Done? && os[3].Done? && os[4].Done?
  }

  lemma TookFirst(s: Slice, w: Intent, os: seq<Outcome>)
    ensures Took(2, s, w, os) && s.loopback.Some? <==> AlterTookEffect(s, os)
  {
    ReachCounts(s, w, os, 2);
    if 2 <= |os| {
      assert GoesOn(0, os[0], s, w) && GoesOn(1, os[1], s, w) <==> os[0].Done? && s.row.Some? && os[1].Done?;
    }
  }

  lemma ReachesTheEnd(s: Slice, w: Intent, os: seq<Outcome>)
    requires AlterTookEffect(s, os) && w.keys == KeysOf(w.keys.name) && ValidName(w.keys.name) && w.password != ""
    ensures Reach(s, w, os) == 5 <==> NothingInTheWay(s, w.keys.name, os)
  {
    ReachCounts(s, w, os, 5);
    AcceptsUpTo59(w.keys.name, w.password);
    if 5 <= |os| {
      assert GoesOn(0, os[0], s, w) && GoesOn(1, os[1], s, w);
      if Reach(s, w, os) == 5 {
        assert GoesOn(2, os[2], s, w) && GoesOn(3, os[3], s, w) && GoesOn(4, os[4], s, w);
      }
    }
  }

  lemma SliceIsAtomic(s: Slice, w: Intent, os: seq<Outcome>)
    requires w.keys == KeysOf(w.keys.name) && ValidName(w.keys.name) && w.password != "" && IsNew(w.password, s)
    ensures var after := RotateSlice(s, w, os);
      Unrotated(s, after) || FullyRotated(after, w) <==> !AlterTookEffect(s, os) || NothingInTheWay(s, w.keys.name, os)
  {
    TookFirst(s, w, os);
    if AlterTookEffect(s, os) {
      ReachesTheEnd(s, w, os);
    } else {
      LaterNeedsEarlier(s, w, os);
    }
  }

  /** Without the first ALTER nothing changes. */
  lemma LaterNeedsEarlier(s: Slice, w: Intent, os: seq<Outcome>)
    requires !AlterTookEffect(s, os)
    ensures Unrotated(s, RotateSlice(s, w, os))
  {
    TookFirst(s, w, os);
    ReachCounts(s, w, os, 3);
    assert 3 <= Reach(s, w, os) ==> GoesOn(2, os[2], s, w);
  }

  /**
   When a rotation is atomic, for every list of outcomes, complete or cut short
   by a crash, every status of the row and every valid name: accounts and file
   are all as before or all carry the new password exactly if the first ALTER
   had no effect, or nothing stood in the way of the rest.
   */
  lemma RotationIsAtomicExactly(s: Stores, n: string, password: string, allow: bool, os: seq<Outcome>)
    requires ValidName(n) && RowKeyed(Lookup(s.rows, n), KeysOf(n))
    requires password != "" && IsNew(password, SliceOf(s, [], KeysOf(n)))
    ensures var before, after := SliceOf(s, [], KeysOf(n)), ProgressOf(RunCall(s, Call(RotateOp, n, password, allow), os)).slice;
      Unrotated(before, after) || FullyRotated(after, IntentOf(n, password, allow))
      <==> !AlterTookEffect(before, os) || NothingInTheWay(before, n, os)
  {
    RotateRuns(s, n, password, allow, os);
    SliceIsAtomic(SliceOf(s, [], KeysOf(n)), IntentOf(n, password, allow), os);
  }

  lemma StoppedAtSecondAlter(s: Slice, w: Intent, os: seq<Outcome>)
    requires s.row.Some? && s.loopback.Some? && s.localhost.Some?
    requires os == [Done, Done, Done, Failed(false), Done]
    ensures RotatePc(s, w, os) == Finished(FailedWith(AlterFault))
    ensures RotateSlice(s, w, os) == s.(loopback := WithNewPassword(s.loopback, w.password))
  {
    ReachCounts(s, w, os, 3);
    ReachCounts(s, w, os, 4);
    assert !GoesOn(3, os[3], s, w);
  }

  /**
   A torn state: the failure of the second ALTER leaves one account with the new
   password, the other and the file with the old.
   */
  lemma TornRotation(allow: bool)
    ensures var was, k := Account("old", {}), KeysOf("a");
      var s := Stores(map["a" := Row(k.db, k.user, Ready, NoFault)], {k.db},
                      map[(k.user, Loopback) := was, (k.user, Localhost) := was],
                      map["a" := Secret("a", k.db, k.user, "old")]);
      var p := RunCall(s, Call(RotateOp, "a", "new", allow), [Done, Done, Done, Failed(false), Done]);
      && p.thread.pc == Finished(FailedWith(AlterFault))
      && HasPassword(Lookup(p.stores.accounts, (k.user, Loopback)), "new")
      && HasPassword(Lookup(p.stores.accounts, (k.user, Localhost)), "old")
      && Lookup(p.stores.files, "a") == Some(Secret("a", k.db, k.user, "old"))
  {
    var was, k := Account("old", {}), KeysOf("a");
    var s := Stores(map["a" := Row(k.db, k.user, Ready, NoFault)], {k.db},
                    map[(k.user, Loopback) := was, (k.user, Localhost) := was],
                    map["a" := Secret("a", k.db, k.user, "old")]);
    var call, os := Call(RotateOp, "a", "new", allow), [Done, Done, Done, Failed(false), Done];
    RunCallKeepsCall(s, call, os);
    RotateRuns(s, "a", "new", allow, os);
    StoppedAtSecondAlter(SliceOf(s, [], k), IntentOf("a", "new", allow), os);
  }

  // ---------------------------------------------------------------- without failures

  predicate AllDone(os: seq<Outcome>) {
    |os| >= 7 && forall i :: 0 <= i < |os| ==> os[i].Done?
  }

  lemma FaultFreeReach(s: Slice, w: Intent, os: seq<Outcome>)
    requires AllDone(os) && s.row.Some?
    ensures Reach(s, w, os) ==
      if s.loopback.None? then 2 else if s.localhost.None? then 3 else if !Accepts(w.File()) then 4 else 5
  {
    ReachCounts(s, w, os, 2);
    ReachCounts(s, w, os, 3);
    ReachCounts(s, w, os, 4);
    ReachCounts(s, w, os, 5);
    assert s.loopback.None? ==> !GoesOn(2, os[2], s, w);
    assert s.localhost.None? ==> !GoesOn(3, os[3], s, w);
    assert !Accepts(w.File()) ==> !GoesOn(4, os[4], s, w);
  }

  /** The project can be rotated at all. */
  predicate Rotatable(s: Slice, n: string) {
    s.loopback.Some? && s.localhost.Some? && |n| <= 59
  }

  lemma FaultFreeSlice(s: Slice, w: Intent, os: seq<Outcome>)
    requires AllDone(os) && s.row.Some? && ValidName(w.keys.name) && w.keys == KeysOf(w.keys.name) && w.password != ""
    ensures var after, pc := RotateSlice(s, w, os), RotatePc(s, w, os);
      && after.row == s.row
      && (pc == Finished(Rotated(s.row.value)) <==> Rotatable(s, w.keys.name))
      && (Rotatable(s, w.keys.name) ==> FullyRotated(after, w))
      && (!Rotatable(s, w.keys.name) ==>
          && after.file == s.file
          && pc == Finished(FailedWith(if s.loopback.None? || s.localhost.None? then AlterFault else SecretFault))
          && after.loopback == WithNewPassword(s.loopback, w.password)
          && after.localhost == if s.loopback.None? then s.localhost else WithNewPassword(s.localhost, w.password))
  {
    FaultFreeReach(s, w, os);
    AcceptsUpTo59(w.keys.name, w.password);
  }

  /**
   What a Rotate without failures does to any project that has a row, whatever
   its status: it succeeds, with both accounts and the file agreeing on the new
   password, exactly if both accounts exist and the name has at most 59
   characters. For a longer name both accounts change and the file does not.
   The row never changes.
   */
  lemma RotateRestoresAgreement(s: Stores, n: string, password: string, allow: bool, os: seq<Outcome>)
    requires ValidName(n) && n in s.rows && RowKeyed(Lookup(s.rows, n), KeysOf(n)) && password != "" && AllDone(os)
    ensures var before, p := SliceOf(s, [], KeysOf(n)), RunCall(s, Call(RotateOp, n, password, allow), os);
      var after := SliceOf(p.stores, p.log, KeysOf(n));
      && Lookup(p.stores.rows, n) == Some(s.rows[n])
      && (p.thread.pc == Finished(Rotated(s.rows[n])) && FullyRotated(after, IntentOf(n, password, allow))
          <==> Rotatable(before, n))
      && (!Rotatable(before, n) ==>
          && after.file == before.file
          && p.thread.pc ==
             Finished(FailedWith(if before.loopback.None? || before.localhost.None? then AlterFault else SecretFault))
          && after.loopback == WithNewPassword(before.loopback, password)
          && after.localhost ==
             if before.loopback.None? then before.localhost else WithNewPassword(before.localhost, password))
  {
    var call := Call(RotateOp, n, password, allow);
    RunCallKeepsCall(s, call, os);
    RotateRuns(s, n, password, allow, os);
    FaultFreeSlice(SliceOf(s, [], KeysOf(n)), IntentOf(n, password, allow), os);
  }
}

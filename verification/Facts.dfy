/**
 What the recorded facts mean: over one call, whatever its outcomes, each fact
 that excuses a disagreement is recorded exactly when there is one.
 */
module Facts {
  import opened Common
  import opened Names
  import opened EnvFile
  import opened Stores
  import opened Calls
  import opened Lifecycle
  import opened Failures
  import opened Rotation
  import opened Answers

  /** The facts about a project after these outcomes of a call on it. */
  function Watched(m: Monitor, s: Stores, call: Call, os: seq<Outcome>): Monitor {
    if os == [] then m
    else
      var p, before := ProgressOf(RunCall(s, call, os[..|os| - 1])), Watched(m, s, call, os[..|os| - 1]);
      if Active(p.thread) then Observe(before, p.slice, p.thread, os[|os| - 1]) else before
  }

  lemma CutLast(os: seq<Outcome>) returns (before: seq<Outcome>, o: Outcome)
    requires os != []
    ensures os == before + [o] && |before| == |os| - 1 && o == os[|before|]
    ensures forall i :: 0 <= i < |before| ==> before[i] == os[i]
  {
    before, o := os[..|os| - 1], os[|os| - 1];
  }

  lemma WatchedSnoc(m: Monitor, s: Stores, call: Call, os: seq<Outcome>, o: Outcome)
    ensures var p, before := ProgressOf(RunCall(s, call, os)), Watched(m, s, call, os);
      Watched(m, s, call, os + [o]) == if Active(p.thread) then Observe(before, p.slice, p.thread, o) else before
  {
    assert (os + [o])[..|os|] == os;
  }

  /** Apart from `exact`, what is observed of a statement is what is noted. */
  lemma ObservedAsNoted(m: Monitor, s: Slice, t: Thread, o: Outcome)
    requires Active(t)
    ensures var n := Note(m, s, t, o);
      Observe(m, s, t, o) == n || Observe(m, s, t, o) == n.(exact := false)
  {
  }

  // ---------------------------------------------------------------- torn

  /** The first account has the new password and the file does not. */
  predicate Diverged(s: Slice, w: Intent) {
    HasPassword(s.loopback, w.password) && s.file != Some(w.File())
  }

  /** A Rotate at this point, with what it has changed. */
  predicate RotateFits(torn: bool, s: Slice, t: Thread, w: Intent) {
    && (torn <==> Diverged(s, w))
    && t.call == RotateCall(w) && RowKeyed(s.row, w.keys) && (t.pc.RLookup? || t.pc.RMissing? || OfRotation(t.pc))
    && (OfRotation(t.pc) && !t.pc.Finished? ==> t.db == w.keys.db && t.user == w.keys.user)
    && (t.pc.RLookup? || t.pc.RDraw? || t.pc == RAlter(Loopback) ==> !HasPassword(s.loopback, w.password))
    && (t.pc == RAlter(Localhost) || t.pc.RSecret? ==> HasPassword(s.loopback, w.password))
    && (t.pc.RLookup? || t.pc.RDraw? || t.pc.RAlter? || t.pc.RSecret? ==> s.file != Some(w.File()))
  }

  predicate OfRotation(pc: Pc) {
    pc.RDraw? || pc.RAlter? || pc.RSecret? || pc.RRotated? || pc.RFinal? || pc.RFailed? || pc.Finished?
  }

  lemma LookupFits(m: Monitor, s: Slice, t: Thread, w: Intent, o: Outcome)
    requires RotateFits(m.torn, s, t, w) && t.pc.RLookup?
    ensures var n := SliceStep(s, t, o); RotateFits(Observe(m, s, t, o).torn, n.slice, n.thread, w)
  {
  }

  lemma AlterFits(m: Monitor, s: Slice, t: Thread, w: Intent, o: Outcome)
    requires RotateFits(m.torn, s, t, w) && t.pc.RAlter?
    ensures var n := SliceStep(s, t, o); RotateFits(Observe(m, s, t, o).torn, n.slice, n.thread, w)
  {
  }

  lemma SecretFits(m: Monitor, s: Slice, t: Thread, w: Intent, o: Outcome)
    requires RotateFits(m.torn, s, t, w) && t.pc.RSecret?
    ensures var n := SliceStep(s, t, o); RotateFits(Observe(m, s, t, o).torn, n.slice, n.thread, w)
  {
  }

  /** The statements of a Rotate that touch neither accounts nor file. */
  predicate QuietPoint(pc: Pc) {
    pc.RMissing? || pc.RDraw? || pc.RRotated? || pc.RFinal? || pc.RFailed?
  }

  lemma QuietStep(s: Slice, t: Thread, o: Outcome)
    requires QuietPoint(t.pc)
    ensures var n := SliceStep(s, t, o);
      && n.slice.row == s.row && n.slice.loopback == s.loopback && n.slice.file == s.file
      && n.thread == t.(pc := n.thread.pc) && OfRotation(n.thread.pc)
      && (n.thread.pc == RAlter(Loopback) ==> t.pc.RDraw?) && n.thread.pc != RAlter(Localhost)
      && !n.thread.pc.RDraw? && !n.thread.pc.RSecret?
  {
  }

  lemma QuietNote(m: Monitor, s: Slice, t: Thread, o: Outcome)
    requires QuietPoint(t.pc)
    ensures Observe(m, s, t, o).torn == m.torn
  {
    ObservedAsNoted(m, s, t, o);
  }

  lemma QuietFits(m: Monitor, s: Slice, t: Thread, w: Intent, o: Outcome)
    requires RotateFits(m.torn, s, t, w) && QuietPoint(t.pc)
    ensures var n := SliceStep(s, t, o); RotateFits(Observe(m, s, t, o).torn, n.slice, n.thread, w)
  {
    QuietStep(s, t, o);
    QuietNote(m, s, t, o);
  }

  lemma StatementFits(m: Monitor, s: Slice, t: Thread, w: Intent, o: Outcome)
    requires RotateFits(m.torn, s, t, w) && Active(t)
    ensures var n := SliceStep(s, t, o); RotateFits(Observe(m, s, t, o).torn, n.slice, n.thread, w)
  {
    if t.pc.RLookup? {
      LookupFits(m, s, t, w, o);
    } else if t.pc.RAlter? {
      AlterFits(m, s, t, w, o);
    } else if t.pc.RSecret? {
      SecretFits(m, s, t, w, o);
    } else {
      QuietFits(m, s, t, w, o);
    }
  }

  lemma TornNext(m: Monitor, s: Stores, call: Call, w: Intent, before: seq<Outcome>, o: Outcome)
    requires RowKeyed(Lookup(s.rows, call.name), KeysOf(call.name))
    requires var p := ProgressOf(RunCall(s, call, before)); RotateFits(Watched(m, s, call, before).torn, p.slice, p.thread, w)
    ensures var p := ProgressOf(RunCall(s, call, before + [o]));
      RotateFits(Watched(m, s, call, before + [o]).torn, p.slice, p.thread, w)
  {
    var p := ProgressOf(RunCall(s, call, before));
    WatchedSnoc(m, s, call, before, o);
    if Active(p.thread) {
      StepOnSlice(s, call, before, o);
      StatementFits(Watched(m, s, call, before), p.slice, p.thread, w, o);
    } else {
      RunCallSnoc(s, call, before, o);
    }
  }

  lemma {:induction false} TornFollows(m: Monitor, s: Stores, n: string, password: string, allow: bool, os: seq<Outcome>)
    requires RowKeyed(Lookup(s.rows, n), KeysOf(n)) && IsNew(password, SliceOf(s, [], KeysOf(n))) && !m.torn
    ensures var call := Call(RotateOp, n, password, allow);
      var p := ProgressOf(RunCall(s, call, os));
      RotateFits(Watched(m, s, call, os).torn, p.slice, p.thread, IntentOf(n, password, allow))
    decreases |os|
  {
    if os != [] {
      var before, o := CutLast(os);
      TornFollows(m, s, n, password, allow, before);
      TornNext(m, s, Call(RotateOp, n, password, allow), IntentOf(n, password, allow), before, o);
    }
  }

  /** In the slices a Rotate can leave, accounts and file agree exactly if they are not apart. */
  lemma DivergedIsDisagreement(z: Slice, w: Intent, os: seq<Outcome>)
    requires Agreed(z) && IsNew(w.password, z)
    ensures var after := RotateSlice(z, w, os); Diverged(after, w) <==> !Agreed(after)
  {
    TookFirst(z, w, os);
    if Reach(z, w, os) == 5 {
      ReachCounts(z, w, os, 5);
      assert GoesOn(2, os[2], z, w) && GoesOn(3, os[3], z, w);
    } else if !AlterTookEffect(z, os) {
      LaterNeedsEarlier(z, w, os);
    }
  }

  /**
   A rotation is recorded as torn exactly if it is: for every list of outcomes
   of a Rotate that finds the file in agreement with both accounts.
   */
  lemma TornIsExact(m: Monitor, s: Stores, n: string, password: string, allow: bool, os: seq<Outcome>)
    requires RowKeyed(Lookup(s.rows, n), KeysOf(n)) && Agreed(SliceOf(s, [], KeysOf(n))) && !m.torn
    requires IsNew(password, SliceOf(s, [], KeysOf(n)))
    ensures var call := Call(RotateOp, n, password, allow);
      Watched(m, s, call, os).torn <==> !Agreed(ProgressOf(RunCall(s, call, os)).slice)
  {
    var z, w := SliceOf(s, [], KeysOf(n)), IntentOf(n, password, allow);
    TornFollows(m, s, n, password, allow, os);
    RotateRuns(s, n, password, allow, os);
    DivergedIsDisagreement(z, w, os);
  }

  // ---------------------------------------------------------------- left over

  /** What is recorded after `i` successful statements of a Create that met these accounts. */
  predicate CreateFacts(m: Monitor, i: nat, z: Slice) {
    i >= 2 ==>
      && !m.torn && !m.deleting
      && (m.leftover <==> (i >= 5 && z.loopback.Some?) || (i >= 6 && z.localhost.Some?))
  }

  lemma CreateFactsNext(m: Monitor, i: nat, z: Slice, w: Intent)
    requires i < 13 && z.row.None? && CreateFacts(m, i, z)
    ensures CreateFacts(Observe(m, CreateSlice(i, z, w), CreateThread(i, w), Done), i + 1, z)
  {
  }

  lemma CreateWatchedNext(m: Monitor, s: Stores, call: Call, w: Intent, before: seq<Outcome>)
    requires |before| < 13 && call.name !in s.rows
    requires var z := SliceOf(s, [], KeysOf(call.name));
      && CreateFacts(Watched(m, s, call, before), |before|, z)
      && ProgressOf(RunCall(s, call, before)) == SliceProgress(CreateSlice(|before|, z, w), CreateThread(|before|, w))
    ensures CreateFacts(Watched(m, s, call, before + [Done]), |before| + 1, SliceOf(s, [], KeysOf(call.name)))
  {
    WatchedSnoc(m, s, call, before, Done);
    CreateFactsNext(Watched(m, s, call, before), |before|, SliceOf(s, [], KeysOf(call.name)), w);
  }

  lemma {:induction false} CreateWatched(m: Monitor, s: Stores, n: string, password: string, allow: bool, os: seq<Outcome>)
    requires ValidName(n) && |n| <= 59 && password != "" && n !in s.rows
    requires |os| <= 13 && forall i :: 0 <= i < |os| ==> os[i].Done?
    ensures CreateFacts(Watched(m, s, Call(CreateOp, n, password, allow), os), |os|, SliceOf(s, [], KeysOf(n)))
    decreases |os|
  {
    if os != [] {
      var before, o := CutLast(os);
      CreateWatched(m, s, n, password, allow, before);
      CreateReaches(s, n, password, allow, before);
      CreateWatchedNext(m, s, Call(CreateOp, n, password, allow), IntentOf(n, password, allow), before);
    }
  }

  /**
   A Create without failures that ends ready records neither a torn rotation nor
   a begun Delete, and it records a leftover account exactly if its file does not
   agree with both accounts.
   */
  lemma LeftoverIsExact(m: Monitor, s: Stores, n: string, password: string, allow: bool, os: seq<Outcome>)
    requires ValidName(n) && |n| <= 59 && password != "" && n !in s.rows && IsNew(password, SliceOf(s, [], KeysOf(n)))
    requires |os| == 13 && forall i :: 0 <= i < |os| ==> os[i].Done?
    ensures var call := Call(CreateOp, n, password, allow);
      var f, after := Watched(m, s, call, os), ProgressOf(RunCall(s, call, os)).slice;
      !f.torn && !f.deleting && (f.leftover <==> !Agreed(after))
  {
    CreateWatched(m, s, n, password, allow, os);
    CreateReaches(s, n, password, allow, os);
  }

  // ---------------------------------------------------------------- deleting

  /** The points of a Delete after its lookup. */
  predicate PastLookup(pc: Pc) {
    pc.DMissing? || pc.DDatabase? || pc.DUser? || pc.DSecret? || pc.DRow? || pc.DDeleted? || pc.DPartial? || pc.Finished?
  }

  lemma FoundIsNoted(m: Monitor, s: Slice, t: Thread, o: Outcome)
    requires t.pc.DLookup?
    ensures PastLookup(SliceStep(s, t, o).thread.pc)
    ensures Observe(m, s, t, o).deleting <==> m.deleting || (o.Done? && s.row.Some?)
  {
  }

  lemma StaysPastLookup(t: Thread, r: Reply)
    requires PastLookup(t.pc) && Active(t)
    ensures PastLookup(Resume(t, r).pc)
  {
  }

  lemma DeletingStays(m: Monitor, s: Slice, t: Thread, o: Outcome)
    requires PastLookup(t.pc) && Active(t)
    ensures Observe(m, s, t, o).deleting == m.deleting
  {
    ObservedAsNoted(m, s, t, o);
    if !t.pc.DRow? && !t.pc.DDeleted? && !t.pc.DPartial? {
      assert Note(m, s, t, o) == m;
    }
  }

  lemma FirstStatement(m: Monitor, s: Stores, call: Call, o: Outcome)
    requires RowKeyed(Lookup(s.rows, call.name), KeysOf(call.name))
    ensures var z := SliceOf(s, [], KeysOf(call.name));
      && RunCall(s, call, [] + [o]).thread == SliceStep(z, Start(call), o).thread
      && Watched(m, s, call, [] + [o]) == Observe(m, z, Start(call), o)
  {
    StepOnSlice(s, call, [], o);
    WatchedSnoc(m, s, call, [], o);
  }

  lemma FirstOutcome(m: Monitor, s: Stores, n: string, allow: bool, o: Outcome)
    requires RowKeyed(Lookup(s.rows, n), KeysOf(n))
    ensures var call := Call(DeleteOp, n, "", allow);
      && PastLookup(RunCall(s, call, [o]).thread.pc)
      && (Watched(m, s, call, [o]).deleting <==> m.deleting || (o.Done? && n in s.rows))
  {
    var call := Call(DeleteOp, n, "", allow);
    assert [] + [o] == [o];
    FirstStatement(m, s, call, o);
    FoundIsNoted(m, SliceOf(s, [], KeysOf(n)), Start(call), o);
  }

  lemma LaterOutcome(m: Monitor, s: Stores, call: Call, before: seq<Outcome>, o: Outcome)
    requires PastLookup(RunCall(s, call, before).thread.pc)
    ensures PastLookup(RunCall(s, call, before + [o]).thread.pc)
    ensures Watched(m, s, call, before + [o]).deleting == Watched(m, s, call, before).deleting
  {
    var p := RunCall(s, call, before);
    WatchedSnoc(m, s, call, before, o);
    RunCallSnoc(s, call, before, o);
    if Active(p.thread) {
      StaysPastLookup(p.thread, Perform(p.stores, ActionOf(p.thread), o).reply);
      DeletingStays(Watched(m, s, call, before), ProgressOf(p).slice, p.thread, o);
    }
  }

  /** A Delete is recorded as begun exactly if its lookup found the row. */
  lemma {:induction false} DeletingIsExact(m: Monitor, s: Stores, n: string, allow: bool, os: seq<Outcome>)
    requires RowKeyed(Lookup(s.rows, n), KeysOf(n)) && os != []
    ensures var call := Call(DeleteOp, n, "", allow);
      && PastLookup(RunCall(s, call, os).thread.pc)
      && (Watched(m, s, call, os).deleting <==> m.deleting || (os[0].Done? && n in s.rows))
    decreases |os|
  {
    var before, o := CutLast(os);
    if before == [] {
      FirstOutcome(m, s, n, allow, o);
    } else {
      DeletingIsExact(m, s, n, allow, before);
      LaterOutcome(m, s, Call(DeleteOp, n, "", allow), before, o);
    }
  }

  // ---------------------------------------------------------------- orphaned, and the marks

  /** What a Delete that began with the marks `marks` has recorded of its row when it is at this point. */
  predicate RemovalFits(m: Monitor, marks: seq<Mark>, row: Option<Row>, t: Thread) {
    match t.pc
    case DLookup => m.marks == marks
    case DMissing => m.marks == marks && row.None?
    case DDatabase => m.marks == marks && row.Some?
    case DUser(_, partial) => m.marks == marks && row.Some? && DeleteRowFault !in partial
    case DSecret(partial) => m.marks == marks && row.Some? && DeleteRowFault !in partial
    case DRow(partial) => m.marks == marks && row.Some? && DeleteRowFault !in partial
    case DDeleted => m.marks == marks + [Gone] && row.None? && !m.orphaned
    case DPartial(partial) => partial != [] && RowFits(m, marks, row, partial)
    case Finished(Removed) => m.marks == marks + [Gone] && row.None? && !m.orphaned
    case Finished(PartialFailure(partial)) => partial != [] && RowFits(m, marks, row, partial)
    case Finished(_) => m.marks == marks
    case _ => false
  }

  /** The row is still there, or it is marked as gone, and as orphaned exactly if something else than its removal failed. */
  predicate RowFits(m: Monitor, marks: seq<Mark>, row: Option<Row>, partial: seq<Fault>) {
    if row.Some? then m.marks == marks
    else m.marks == marks + [Gone] && (m.orphaned <==> partial != [DeleteRowFault])
  }

  lemma BeforeRemovalFits(m: Monitor, marks: seq<Mark>, s: Slice, t: Thread, o: Outcome)
    requires RemovalFits(m, marks, s.row, t) && Active(t) && !t.pc.DRow? && !t.pc.DDeleted? && !t.pc.DPartial?
    ensures var n := SliceStep(s, t, o); RemovalFits(Observe(m, s, t, o), marks, n.slice.row, n.thread)
  {
    ObservedAsNoted(m, s, t, o);
  }

  lemma RowRemovalFits(m: Monitor, marks: seq<Mark>, s: Slice, t: Thread, o: Outcome)
    requires RemovalFits(m, marks, s.row, t) && t.pc.DRow?
    ensures var n := SliceStep(s, t, o); RemovalFits(Observe(m, s, t, o), marks, n.slice.row, n.thread)
  {
    RowStepOf(s, t, t.pc.partial, o);
    ObservedAsNoted(m, s, t, o);
    assert t.pc.partial != [] ==> t.pc.partial + [DeleteRowFault] != [DeleteRowFault];
  }

  lemma AfterRemovalFits(m: Monitor, marks: seq<Mark>, s: Slice, t: Thread, o: Outcome)
    requires RemovalFits(m, marks, s.row, t) && (t.pc.DDeleted? || t.pc.DPartial?)
    ensures var n := SliceStep(s, t, o); RemovalFits(Observe(m, s, t, o), marks, n.slice.row, n.thread)
  {
    ObservedAsNoted(m, s, t, o);
  }

  lemma RemovalNext(m: Monitor, marks: seq<Mark>, s: Stores, call: Call, before: seq<Outcome>, o: Outcome)
    requires RowKeyed(Lookup(s.rows, call.name), KeysOf(call.name))
    requires var p := ProgressOf(RunCall(s, call, before));
      RemovalFits(Watched(m, s, call, before), marks, p.slice.row, p.thread)
    ensures var p := ProgressOf(RunCall(s, call, before + [o]));
      RemovalFits(Watched(m, s, call, before + [o]), marks, p.slice.row, p.thread)
  {
    var p, f := ProgressOf(RunCall(s, call, before)), Watched(m, s, call, before);
    WatchedSnoc(m, s, call, before, o);
    if !Active(p.thread) {
      RunCallSnoc(s, call, before, o);
    } else {
      StepOnSlice(s, call, before, o);
      if p.thread.pc.DRow? {
        RowRemovalFits(f, marks, p.slice, p.thread, o);
      } else if p.thread.pc.DDeleted? || p.thread.pc.DPartial? {
        AfterRemovalFits(f, marks, p.slice, p.thread, o);
      } else {
        BeforeRemovalFits(f, marks, p.slice, p.thread, o);
      }
    }
  }

  /**
   For every list of outcomes of a Delete: the removal of the row is marked
   exactly if it took effect, and it counts as orphaning exactly if one of the
   drops before it is among the failures.
   */
  lemma {:induction false} RemovalIsExact(m: Monitor, s: Stores, n: string, allow: bool, os: seq<Outcome>)
    requires RowKeyed(Lookup(s.rows, n), KeysOf(n))
    ensures var call := Call(DeleteOp, n, "", allow);
      var p := ProgressOf(RunCall(s, call, os));
      RemovalFits(Watched(m, s, call, os), m.marks, p.slice.row, p.thread)
    decreases |os|
  {
    if os != [] {
      var before, o := CutLast(os);
      RemovalIsExact(m, s, n, allow, before);
      RemovalNext(m, m.marks, s, Call(DeleteOp, n, "", allow), before, o);
    }
  }

  /** A Create is marked exactly if it returns a new project. */
  predicate CreationFits(m: Monitor, marks: seq<Mark>, t: Thread) {
    t.call.op.CreateOp? && OpFits(t)
    && m.marks == marks + (if t.pc.Finished? && t.pc.result.Created? then [Made] else [])
  }

  lemma MarksKept(m: Monitor, s: Slice, t: Thread, o: Outcome)
    requires Active(t) && !t.pc.DRow? && !t.pc.CCreated?
    ensures Note(m, s, t, o).marks == m.marks
  {
    if t.pc.CUser? || t.pc.RAlter? || t.pc.RSecret? || t.pc.DLookup? || t.pc.CInsert? || t.pc.CReady? {
    } else if t.pc.CFailed? || t.pc.DDeleted? || t.pc.DPartial? {
      assert Note(m, s, t, o) == m.(gap := false);
    } else {
      assert Note(m, s, t, o) == m;
    }
  }

  lemma MarksNoted(m: Monitor, s: Slice, t: Thread, o: Outcome)
    requires Active(t) && !t.pc.DRow?
    ensures Note(m, s, t, o).marks == if t.pc.CCreated? then m.marks + [Made] else m.marks
  {
    if !t.pc.CCreated? {
      MarksKept(m, s, t, o);
    }
  }

  lemma CreatedComesFrom(t: Thread, r: Reply)
    requires Active(t)
    ensures NextPc(t, r).Finished? && NextPc(t, r).result.Created? <==> t.pc.CCreated?
  {
  }

  lemma CreationNext(m: Monitor, marks: seq<Mark>, s: Slice, t: Thread, o: Outcome)
    requires CreationFits(m, marks, t) && Active(t)
    ensures CreationFits(Observe(m, s, t, o), marks, SliceStep(s, t, o).thread)
  {
    ObservedAsNoted(m, s, t, o);
    MarksNoted(m, s, t, o);
    ResumeFits(t, PerformOnSlice(s, ActionOf(t), o).reply);
    CreatedComesFrom(t, PerformOnSlice(s, ActionOf(t), o).reply);
    assert marks + [] == marks;
  }

  lemma {:induction false} CreationIsExact(m: Monitor, s: Stores, call: Call, os: seq<Outcome>)
    requires call.op.CreateOp? && RowKeyed(Lookup(s.rows, call.name), KeysOf(call.name))
    ensures CreationFits(Watched(m, s, call, os), m.marks, RunCall(s, call, os).thread)
    decreases |os|
  {
    if os != [] {
      var before, o := CutLast(os);
      CreationIsExact(m, s, call, before);
      var p := ProgressOf(RunCall(s, call, before));
      WatchedSnoc(m, s, call, before, o);
      if Active(p.thread) {
        StepOnSlice(s, call, before, o);
        CreationNext(Watched(m, s, call, before), m.marks, p.slice, p.thread, o);
      } else {
        RunCallSnoc(s, call, before, o);
      }
    }
  }

  // ---------------------------------------------------------------- the log

  /** No failure is noted. */
  predicate Faultless(pc: Pc) {
    match pc
    case DUser(_, partial) => partial == []
    case DSecret(partial) => partial == []
    case DRow(partial) => partial == []
    case DPartial(_) => false
    case _ => true
  }

  lemma FaultlessNext(t: Thread, r: Reply)
    requires Active(t) && Faultless(t.pc) && (OfDelete(t.pc) && !t.pc.DLookup? ==> r.Ok?)
    ensures Faultless(NextPc(t, r))
  {
  }

  lemma RemovalsSucceed(s: Slice, t: Thread)
    requires OfDelete(t.pc) && !t.pc.DLookup?
    ensures PerformOnSlice(s, ActionOf(t), Done).reply.Ok?
  {
  }

  lemma ExactStays(m: Monitor, s: Slice, t: Thread)
    requires Active(t) && Faultless(t.pc)
    ensures Observe(m, s, t, Done).exact == m.exact
  {
    assert Observe(m, s, t, Done) == Note(m, s, t, Done);
  }

  lemma FaultlessStep(m: Monitor, s: Slice, t: Thread)
    requires Active(t) && Faultless(t.pc)
    ensures Observe(m, s, t, Done).exact == m.exact && Faultless(SliceStep(s, t, Done).thread.pc)
  {
    ExactStays(m, s, t);
    if OfDelete(t.pc) && !t.pc.DLookup? {
      RemovalsSucceed(s, t);
    }
    FaultlessNext(t, PerformOnSlice(s, ActionOf(t), Done).reply);
  }

  lemma FaultlessOutcome(m: Monitor, s: Stores, call: Call, before: seq<Outcome>)
    requires RowKeyed(Lookup(s.rows, call.name), KeysOf(call.name)) && Faultless(RunCall(s, call, before).thread.pc)
    ensures Watched(m, s, call, before + [Done]).exact == Watched(m, s, call, before).exact
    ensures Faultless(RunCall(s, call, before + [Done]).thread.pc)
  {
    var p := ProgressOf(RunCall(s, call, before));
    WatchedSnoc(m, s, call, before, Done);
    if Active(p.thread) {
      StepOnSlice(s, call, before, Done);
      FaultlessStep(Watched(m, s, call, before), p.slice, p.thread);
    } else {
      RunCallSnoc(s, call, before, Done);
    }
  }

  /** A run of any call without failures does not make the log unreliable. */
  lemma {:induction false} FaultFreeKeepsExact(m: Monitor, s: Stores, call: Call, os: seq<Outcome>)
    requires RowKeyed(Lookup(s.rows, call.name), KeysOf(call.name)) && forall i :: 0 <= i < |os| ==> os[i].Done?
    ensures Watched(m, s, call, os).exact == m.exact && Faultless(RunCall(s, call, os).thread.pc)
    decreases |os|
  {
    if os != [] {
      var before, o := CutLast(os);
      FaultFreeKeepsExact(m, s, call, before);
      FaultlessOutcome(m, s, call, before);
    }
  }
}

/** The main results about every run, read off the invariants. */
module Theorems {
  import opened Names
  import opened SqlText
  import opened EnvFile
  import opened Stores
  import opened Calls
  import opened Lifecycle
  import opened System
  import opened Serial
  import opened Safety

  // ---------------------------------------------------------------- write-ahead cover

  lemma NoRowNoResources(names: set<string>, s: Sys, n: string)
    requires RunsTo(names, s) && n in names && n !in s.stores.rows && !MonitorOf(s, n).orphaned
    ensures DatabaseName(n) !in s.stores.dbs && n !in s.stores.files
    ensures forall h :: (UserName(n), h) !in s.stores.accounts
  {
    RunsAreSafe(names, s);
    assert NameSafe(s, n) && Bare(SliceIn(s, n));
    forall h: Host ensures (UserName(n), h) !in s.stores.accounts {
      assert h == Loopback || h == Localhost;
    }
  }

  /**
   In every reachable state, between any two statements and after any crash of
   the process, every database, account and secret file belongs to a name with a
   row, provided the last row removal of each name without one came after three
   successful drops.
   */
  lemma WriteAheadCover(names: set<string>, s: Sys)
    requires RunsTo(names, s)
    requires forall n :: n in names && n !in s.stores.rows ==> !MonitorOf(s, n).orphaned
    ensures forall d :: d in s.stores.dbs ==> exists n :: n in s.stores.rows && DatabaseName(n) == d
    ensures forall x :: x in s.stores.accounts ==> exists n :: n in s.stores.rows && UserName(n) == x.0
    ensures s.stores.files.Keys <= s.stores.rows.Keys
  {
    RunsAreSafe(names, s);
    forall d | d in s.stores.dbs ensures exists n :: n in s.stores.rows && DatabaseName(n) == d {
      var n :| n in names && DatabaseName(n) == d;
      if n !in s.stores.rows {
        NoRowNoResources(names, s, n);
      }
    }
    forall x | x in s.stores.accounts ensures exists n :: n in s.stores.rows && UserName(n) == x.0 {
      var n :| n in names && UserName(n) == x.0;
      assert x == (UserName(n), x.1);
      if n !in s.stores.rows {
        NoRowNoResources(names, s, n);
      }
    }
    forall n | n in s.stores.files ensures n in s.stores.rows {
      if n !in s.stores.rows {
        NoRowNoResources(names, s, n);
      }
    }
  }

  // ---------------------------------------------------------------- ready rows

  predicate IsReady(s: Stores, n: string) {
    n in s.rows && s.rows[n].status.Ready?
  }

  /**
   A ready row no Delete has looked up since its insertion has its database,
   both accounts with every privilege on that database, DROP if and only if it is
   allowed, and no other, and a secret file naming them, whatever failed on the way.
   */
  lemma ReadyMeansComplete(names: set<string>, s: Sys, n: string, h: Host)
    requires RunsTo(names, s) && n in names && IsReady(s.stores, n) && !MonitorOf(s, n).deleting
    ensures DatabaseName(n) in s.stores.dbs
    ensures Lookup(s.stores.accounts, (UserName(n), h)).Some?
    ensures forall g :: g in s.stores.accounts[(UserName(n), h)].grants <==>
      g.0 == DatabaseName(n) && (g.1.DROP? ==> s.allowDrop)
    ensures n in s.stores.files
    ensures s.stores.files[n] == Secret(n, DatabaseName(n), UserName(n), s.stores.files[n].password)
    ensures s.stores.rows[n].database == DatabaseName(n) && s.stores.rows[n].user == UserName(n)
  {
    RunsAreSafe(names, s);
    SoundSlice(s, n);
    AccountOfSlice(s, n, h);
    FullAndConfined(SliceIn(s, n), KeysOf(n), s.allowDrop, h);
  }

  /** The account of a host, seen in the stores and in the slice. */
  lemma AccountOfSlice(s: Sys, n: string, h: Host)
    ensures SliceIn(s, n).At(h) == Lookup(s.stores.accounts, (UserName(n), h))
  {
  }

  lemma SoundSlice(s: Sys, n: string)
    requires NameSafe(s, n) && IsReady(s.stores, n) && !MonitorOf(s, n).deleting
    ensures RowKeyed(SliceIn(s, n).row, KeysOf(n)) && Complete(SliceIn(s, n), KeysOf(n), s.allowDrop)
    ensures Confined(SliceIn(s, n).loopback, KeysOf(n), s.allowDrop) && Confined(SliceIn(s, n).localhost, KeysOf(n), s.allowDrop)
    ensures !MonitorOf(s, n).leftover && !MonitorOf(s, n).torn ==> Agreed(SliceIn(s, n))
  {
    assert InStatus(SliceIn(s, n), Ready);
  }

  lemma FullAndConfined(s: Slice, k: Keys, allow: bool, h: Host)
    requires Full(s.loopback, k, allow) && Full(s.localhost, k, allow)
    requires Confined(s.loopback, k, allow) && Confined(s.localhost, k, allow)
    ensures s.At(h).Some? && forall g :: g in s.At(h).value.grants <==> g.0 == k.db && (g.1.DROP? ==> allow)
  {
    GrantSetIs(k.db, allow);
  }

  /**
   The secret file of a ready row opens both accounts, unless its Create met a
   leftover account, a Rotate is between its first effective ALTER and the end
   of its secret write or stopped there (and no later Rotate succeeded), or a
   Delete has begun.
   */
  lemma CredentialAgreement(names: set<string>, s: Sys, n: string, h: Host)
    requires RunsTo(names, s) && n in names && IsReady(s.stores, n)
    requires !MonitorOf(s, n).leftover && !MonitorOf(s, n).torn && !MonitorOf(s, n).deleting
    ensures n in s.stores.files && Lookup(s.stores.accounts, (UserName(n), h)).Some?
    ensures s.stores.accounts[(UserName(n), h)].password == s.stores.files[n].password
  {
    RunsAreSafe(names, s);
    SoundSlice(s, n);
    AccountOfSlice(s, n, h);
    AgreedAt(SliceIn(s, n), h);
  }

  lemma AgreedAt(s: Slice, h: Host)
    requires Agreed(s)
    ensures HasPassword(s.At(h), s.file.value.password)
  {
  }

  // ---------------------------------------------------------------- grants

  /** Some grant of the account matches the database by MySQL's wildcard rule. */
  ghost predicate Reaches(s: Stores, user: string, h: Host, db: string) {
    (user, h) in s.accounts && exists g :: g in s.accounts[(user, h)].grants && WildMatch(g.0, db)
  }

  /** Every privilege of an account is on its own database, from the fixed list, DROP only when allowed. */
  lemma GrantsStayOnOwnDatabase(names: set<string>, s: Sys, n: string, h: Host)
    requires RunsTo(names, s) && n in names && (UserName(n), h) in s.stores.accounts
    ensures forall g :: g in s.stores.accounts[(UserName(n), h)].grants ==>
      g.0 == DatabaseName(n) && (g.1.DROP? ==> s.allowDrop)
  {
    RunsAreSafe(names, s);
    assert NameSafe(s, n);
    AccountOfSlice(s, n, h);
    ConfinedAt(SliceIn(s, n), KeysOf(n), s.allowDrop, h);
  }

  lemma ConfinedAt(s: Slice, k: Keys, allow: bool, h: Host)
    requires Confined(s.loopback, k, allow) && Confined(s.localhost, k, allow) && s.At(h).Some?
    ensures forall g :: g in s.At(h).value.grants ==> g.0 == k.db && (g.1.DROP? ==> allow)
  {
    GrantSetIs(k.db, allow);
  }

  /**
   No account ever reaches the database of a name that does not shadow its own,
   and a ready project reaches every database whose name does.
   */
  lemma GrantIsolation(names: set<string>, s: Sys, n: string, m: string, h: Host)
    requires RunsTo(names, s) && n in names && ValidName(n) && ValidName(m)
    ensures Reaches(s.stores, UserName(n), h, DatabaseName(m)) ==> Shadows(n, m)
    ensures IsReady(s.stores, n) && !MonitorOf(s, n).deleting ==>
      (Reaches(s.stores, UserName(n), h, DatabaseName(m)) <==> Shadows(n, m))
  {
    GrantReachesExactlyShadows(n, m);
    if (UserName(n), h) in s.stores.accounts {
      GrantsStayOnOwnDatabase(names, s, n, h);
    }
    if IsReady(s.stores, n) && !MonitorOf(s, n).deleting {
      ReadyMeansComplete(names, s, n, h);
      var g := (DatabaseName(n), SELECT);
      assert g in s.stores.accounts[(UserName(n), h)].grants;
    }
  }

  // ---------------------------------------------------------------- audit

  /**
   While no call is at work on the name, replaying the log tells whether its
   row is ready, provided its store and audit statements succeeded, no Delete
   of it ended partial, and no crash fell between a row change and its record.
   */
  lemma AuditReplayOfName(names: set<string>, s: Sys, n: string)
    requires RunsTo(names, s) && n in names && !Occupied(s, n) && MonitorOf(s, n).exact
    ensures n in ReplayAudit(s.audit) <==> IsReady(s.stores, n)
  {
    RunsAreSafe(names, s);
    assert NameSafe(s, n);
  }

  /** With no call in progress the replayed names are exactly the ready rows. */
  lemma AuditReplay(names: set<string>, s: Sys)
    requires RunsTo(names, s)
    requires forall n :: n in names ==> MonitorOf(s, n).exact
    requires forall p :: p in s.procs ==> s.procs[p].phase.Exited?
    ensures ReplayAudit(s.audit) == set n | n in s.stores.rows && s.stores.rows[n].status.Ready?
  {
    RunsAreSafe(names, s);
    forall n | n in names ensures n in ReplayAudit(s.audit) <==> IsReady(s.stores, n) {
      assert !Occupied(s, n);
      AuditReplayOfName(names, s, n);
    }
  }

  // ---------------------------------------------------------------- single creation

  /** Between two successful creations of a name some Delete removed the row. */
  lemma SingleCreation(names: set<string>, s: Sys, n: string, i: nat, j: nat)
    requires RunsTo(names, s) && n in names
    requires i < j < |MonitorOf(s, n).marks| && MonitorOf(s, n).marks[i].Made? && MonitorOf(s, n).marks[j].Made?
    ensures exists k :: i < k < j && MonitorOf(s, n).marks[k].Gone?
  {
    RunsAreSafe(names, s);
    assert NameSafe(s, n);
    var marks := MonitorOf(s, n).marks;
    assert NeverTwice(marks);
    assert !(marks[i].Made? && marks[i + 1].Made?);
    assert marks[i + 1].Gone?;
  }

  /** The branch for a conflicting insert is never taken within one process. */
  lemma ConflictUnreachable(names: set<string>, s: Sys, p: nat)
    requires RunsTo(names, s) && p in s.procs && s.procs[p].phase.Critical?
    ensures !s.procs[p].phase.thread.pc.CConflictLookup? && !s.procs[p].phase.thread.pc.CConflict?
  {
    RunsAreSafe(names, s);
    assert ProcSafe(s, names, s.procs[p]);
    var n := s.procs[p].call.name;
    NoConflict(SliceIn(s, n), s.procs[p].phase.thread, KeysOf(n));
  }

  lemma NoConflict(s: Slice, t: Thread, k: Keys)
    requires Positioned(s, t, k)
    ensures !t.pc.CConflictLookup? && !t.pc.CConflict?
  {
  }

  // ---------------------------------------------------------------- statuses

  lemma StoredStatuses(names: set<string>, s: Sys, n: string)
    requires RunsTo(names, s) && n in s.stores.rows
    ensures var row := s.stores.rows[n];
      (row.status.Pending? || row.status.Ready? || row.status.Error?) && (row.status.Error? <==> row.lastError != NoFault)
  {
    RunsAreSafe(names, s);
    assert NameSafe(s, n);
  }

  /** A row changes only by a statement of a call on its name, and then as `RowMoves` allows for that kind of call. */
  lemma StatusMachine(names: set<string>, s: Sys, e: Event, n: string)
    requires RunsTo(names, s) && Enabled(s, e) && n in names
    ensures var before, after := Lookup(s.stores.rows, n), Lookup(Apply(s, e).stores.rows, n);
      before != after ==>
        && e.Advance? && s.procs[e.proc].call.name == n
        && RowMoves(before, after, s.procs[e.proc].call.op)
  {
    RunsAreSafe(names, s);
    if e.Advance? {
      StepMoves(names, s, e.proc, e.outcome, n);
    }
  }

  lemma StepMoves(names: set<string>, s: Sys, p: nat, o: Outcome, n: string)
    requires Separate(names) && Safe(s, names) && n in names && p in s.procs && CanStep(s, p)
    ensures var before, after := Lookup(s.stores.rows, n), Lookup(ProcStep(s, p, o).stores.rows, n);
      before != after ==> s.procs[p].call.name == n && RowMoves(before, after, s.procs[p].call.op)
  {
    if s.procs[p].phase.Critical? && Active(s.procs[p].phase.thread) {
      StatementMoves(names, s, p, o, n);
    } else {
      OtherStepsKeepStores(s, p, o);
    }
  }

  lemma OtherStepsKeepStores(s: Sys, p: nat, o: Outcome)
    requires p in s.procs && CanStep(s, p)
    requires !s.procs[p].phase.Critical? || !Active(s.procs[p].phase.thread)
    ensures ProcStep(s, p, o).stores == s.stores
  {
  }

  lemma StatementMoves(names: set<string>, s: Sys, p: nat, o: Outcome, n: string)
    requires Separate(names) && Safe(s, names) && n in names
    requires p in s.procs && s.procs[p].phase.Critical? && Active(s.procs[p].phase.thread)
    ensures var before, after := Lookup(s.stores.rows, n), Lookup(Statement(s, p, o).stores.rows, n);
      before != after ==> s.procs[p].call.name == n && RowMoves(before, after, s.procs[p].call.op)
  {
    assert ProcSafe(s, names, s.procs[p]);
    var m, t := s.procs[p].call.name, s.procs[p].phase.thread;
    KeyedOwns(t, KeysOf(m));
    if m == n {
      OwnSliceMoves(s, p, o);
      StatementMovesRow(SliceIn(s, n), t, KeysOf(n), o);
    } else {
      OtherSliceStays(s, p, o, n);
      assert SliceIn(Statement(s, p, o), n).row == SliceIn(s, n).row;
    }
  }
}

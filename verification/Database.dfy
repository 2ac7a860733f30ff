/**
 The metadata store and the lock tables: project rows and the audit log behind
 statements that may fail, and mutexes found by name in a table that only grows.
 */
module Database {
  import opened Stores
  import opened System
  import opened Journals

  /** Every mutex is an old one, and no two names share one. */
  ghost predicate Bound(table: map<string, nat>, next: nat) {
    && (forall n :: n in table ==> table[n] < next)
    && (forall m, n :: m in table && n in table && m != n ==> table[m] != table[n])
  }

  /**
   A table of mutexes, bound lazily. A mutex is its number here; `held` are the
   locked ones. Waiting for a mutex another call holds is a matter of `System`.
   */
  class LockRegistry {
    var guard: bool
    var table: map<string, nat>
    var held: set<nat>
    var next: nat

    /** The guard is only held inside `Lock`. */
    ghost predicate Valid()
      reads this
    {
      !guard && Bound(table, next) && forall m :: m in held ==> m < next
    }

    /** The name's mutex is locked. */
    ghost predicate Holds(name: string)
      reads this
    {
      name in table && table[name] in held
    }

    constructor ()
      ensures Valid() && table == map[] && held == {}
    {
      guard, table, held, next := false, map[], {}, 0;
    }

    /** Locks the name's mutex, if nobody holds it. The table keeps every binding it has, and other mutexes may be held. */
    method Lock(name: string) returns (m: nat)
      requires Valid() && (name in table ==> table[name] !in held)
      modifies this
      ensures Valid() && table == Bind(old(table), name, old(next)) && m == table[name]
      ensures forall n :: n in old(table) ==> n in table && table[n] == old(table)[n]
      ensures m !in old(held) && held == old(held) + {m}
    {
      guard := true;
      if name !in table {
        table := table[name := next];
        next := next + 1;
      }
      m := table[name];
      guard := false;
      held := held + {m};
    }

    method Unlock(m: nat)
      requires Valid() && m in held
      modifies this`held
      ensures Valid() && held == old(held) - {m} && table == old(table)
    {
      held := held - {m};
    }
  }

  class Store {
    var rows: map<string, Row>
    var audit: seq<Record>
    const creating: LockRegistry
    const journal: Journal

    constructor (rows: map<string, Row>, audit: seq<Record>, journal: Journal)
      ensures this.rows == rows && this.audit == audit && this.journal == journal
      ensures fresh(creating) && creating.Valid() && creating.held == {}
    {
      this.rows, this.audit, this.journal := rows, audit, journal;
      creating := new LockRegistry();
    }

    method GetProject(name: string) returns (r: Reply, ghost o: Outcome)
      modifies journal
      ensures r == RowStep(Lookup(rows, name), Action.GetProject(name), o).reply
      ensures r == if !o.Done? then Err else if name in rows then Found(rows[name]) else Missing
      ensures journal.outcomes == old(journal.outcomes) + [o]
    {
      var fails: bool := *;
      o := if fails then Failed(false) else Done;
      r := if fails then Err else if name in rows then Found(rows[name]) else Missing;
      journal.Note(o);
    }

    /** Inserts the row, unless the name is taken. */
    method CreateProject(name: string, row: Row) returns (r: Reply, ghost o: Outcome)
      modifies this`rows, journal
      ensures var e := RowStep(Lookup(old(rows), name), Action.CreateProject(name, row), o);
        rows == Assign(old(rows), name, e.cell) && r == e.reply
      ensures r == if !o.Done? then Err else if name in old(rows) then Conflict else Ok
      ensures rows == if name !in old(rows) && o.Applies() then old(rows)[name := row] else old(rows)
      ensures journal.outcomes == old(journal.outcomes) + [o]
    {
      var fails: bool := *;
      var applied: bool := *;
      o := if fails then Failed(applied) else Done;
      if name in rows {
        r := if fails then Err else Conflict;
      } else {
        r := if fails then Err else Ok;
        if !fails || applied {
          rows := rows[name := row];
        }
      }
      journal.Note(o);
    }

    /** A missing row is no error. */
    method UpdateProjectStatus(name: string, status: Status, lastError: Fault) returns (r: Reply, ghost o: Outcome)
      modifies this`rows, journal
      ensures var e := RowStep(Lookup(old(rows), name), Action.UpdateProjectStatus(name, status, lastError), o);
        rows == Assign(old(rows), name, e.cell) && r == e.reply
      ensures r == if o.Done? then Ok else Err
      ensures rows == if name in old(rows) && o.Applies()
        then old(rows)[name := Row(old(rows)[name].database, old(rows)[name].user, status, lastError)] else old(rows)
      ensures journal.outcomes == old(journal.outcomes) + [o]
    {
      var fails: bool := *;
      var applied: bool := *;
      o := if fails then Failed(applied) else Done;
      r := if fails then Err else Ok;
      if name in rows && (!fails || applied) {
        rows := rows[name := rows[name].(status := status, lastError := lastError)];
      }
      journal.Note(o);
    }

    /** A missing row is no error. */
    method DeleteProject(name: string) returns (r: Reply, ghost o: Outcome)
      modifies this`rows, journal
      ensures var e := RowStep(Lookup(old(rows), name), Action.DeleteProject(name), o);
        rows == Assign(old(rows), name, e.cell) && r == e.reply
      ensures r == if o.Done? then Ok else Err
      ensures rows == old(rows) - (if o.Applies() then {name} else {})
      ensures journal.outcomes == old(journal.outcomes) + [o]
    {
      var fails: bool := *;
      var applied: bool := *;
      o := if fails then Failed(applied) else Done;
      r := if fails then Err else Ok;
      if !fails || applied {
        rows := rows - {name};
      }
      journal.Note(o);
    }

    method WriteAudit(record: Record) returns (ghost o: Outcome)
      modifies this`audit, journal
      ensures audit == old(audit) + Emitted(Action.WriteAudit(record), o)
      ensures audit == old(audit) + (if o.Applies() then [record] else [])
      ensures journal.outcomes == old(journal.outcomes) + [o]
    {
      var fails: bool := *;
      var applied: bool := *;
      o := if fails then Failed(applied) else Done;
      if !fails || applied {
        audit := audit + [record];
      }
      journal.Note(o);
    }
  }
}

/**
 The MySQL side: databases, accounts and grants behind statements that may
 fail, and the provisioner's operations with their loops over the two hosts.
 */
module MySql {
  import opened Common
  import opened SqlText
  import opened Stores
  import opened Calls
  import opened Journals

  /** One statement per host: the second runs only if the first succeeded. */
  function BothHosts(s: Stores, first: Action, second: Action, o: Outcome, q: Outcome): Effect {
    var e := Perform(s, first, o);
    if e.reply.Ok? then Perform(e.stores, second, q) else e
  }

  predicate OnServer(a: Action) {
    OnDatabase(a) || OnAccount(a) || a.FlushPrivileges?
  }

  /** A statement that is refused before it is sent is one that failed without an effect. */
  lemma NothingSent(s: Stores, a: Action)
    requires OnServer(a)
    ensures Perform(s, a, Failed(false)) == Effect(s, Err)
  {
    if OnAccount(a) {
      assert Assign(s.accounts, (a.user, a.host), Lookup(s.accounts, (a.user, a.host))) == s.accounts;
    }
  }

  /** The outcomes of the statements that `BothHosts` makes. */
  function Met(s: Stores, first: Action, o: Outcome, q: Outcome): seq<Outcome> {
    if Perform(s, first, o).reply.Ok? then [o, q] else [o]
  }

  /** These statements themselves. */
  function Sent(s: Stores, first: Action, second: Action, o: Outcome): seq<Action> {
    if Perform(s, first, o).reply.Ok? then [first, second] else [first]
  }

  // ---------------------------------------------------------------- the two hosts

  /** Accounts of other users, databases, rows and files are as before. */
  ghost predicate OnlyUser(s: Stores, t: Stores, user: string) {
    && t.rows == s.rows && t.dbs == s.dbs && t.files == s.files
    && forall x: (string, Host) :: x.0 != user ==> Lookup(t.accounts, x) == Lookup(s.accounts, x)
  }

  /** The account of a user on each host, before and after. */
  datatype Pair = Pair(loopback: Option<Account>, localhost: Option<Account>)

  function PairOf(s: Stores, user: string): Pair {
    Pair(Lookup(s.accounts, (user, Loopback)), Lookup(s.accounts, (user, Localhost)))
  }

  /** CREATE USER on both hosts: an account there was keeps its password and grants, a new one has no grants. */
  lemma CreatesBoth(s: Stores, user: string, password: string, o: Outcome, q: Outcome)
    ensures var e := BothHosts(s, CreateUser(user, Loopback, password), CreateUser(user, Localhost, password), o, q);
      var was, made := PairOf(s, user), Some(Account(password, {}));
      && e.reply == (if o.Done? && q.Done? then Ok else Err) && OnlyUser(s, e.stores, user)
      && PairOf(e.stores, user) == Pair(
           if o.Applies() && was.loopback.None? then made else was.loopback,
           if o.Done? && q.Applies() && was.localhost.None? then made else was.localhost)
  {
  }

  /** ALTER USER on both hosts: an account there must be; only its password changes. */
  lemma AltersBoth(s: Stores, user: string, password: string, o: Outcome, q: Outcome)
    ensures var e := BothHosts(s, AlterUser(user, Loopback, password), AlterUser(user, Localhost, password), o, q);
      var was := PairOf(s, user);
      var second := was.loopback.Some? && o.Done?;
      && e.reply == (if second && was.localhost.Some? && q.Done? then Ok else Err) && OnlyUser(s, e.stores, user)
      && PairOf(e.stores, user) == Pair(
           if o.Applies() && was.loopback.Some? then Some(Account(password, was.loopback.value.grants))
           else was.loopback,
           if second && q.Applies() && was.localhost.Some? then Some(Account(password, was.localhost.value.grants))
           else was.localhost)
  {
  }

  /** DROP USER on both hosts. */
  lemma DropsBoth(s: Stores, user: string, o: Outcome, q: Outcome)
    ensures var e := BothHosts(s, Action.DropUser(user, Loopback), Action.DropUser(user, Localhost), o, q);
      var was := PairOf(s, user);
      && e.reply == (if o.Done? && q.Done? then Ok else Err) && OnlyUser(s, e.stores, user)
      && PairOf(e.stores, user) == Pair(if o.Applies() then None else was.loopback,
                                        if o.Done? && q.Applies() then None else was.localhost)
  {
  }

  /** What a GRANT of every privilege on the database, DROP only when allowed, makes of an account. */
  ghost predicate Extends(was: Option<Account>, now: Option<Account>, db: string, allowDrop: bool) {
    && was.Some? && now.Some? && now.value.password == was.value.password
    && forall g :: g in now.value.grants <==> g in was.value.grants || (g.0 == db && (g.1.DROP? ==> allowDrop))
  }

  lemma GrantExtends(a: Account, db: string, allowDrop: bool)
    ensures Extends(Some(a), Some(Granted(a, db, Privileges(allowDrop))), db, allowDrop)
  {
    GrantSetIs(db, allowDrop);
  }

  lemma GrantsOne(s: Stores, db: string, user: string, h: Host, allowDrop: bool, o: Outcome)
    ensures var e := Perform(s, GrantOn(db, user, h, Privileges(allowDrop)), o);
      var was, now := Lookup(s.accounts, (user, h)), Lookup(e.stores.accounts, (user, h));
      && e.reply == (if was.Some? && o.Done? then Ok else Err) && OnlyUser(s, e.stores, user)
      && (if was.Some? && o.Applies() then Extends(was, now, db, allowDrop) else now == was)
      && forall i :: i != h ==> Lookup(e.stores.accounts, (user, i)) == Lookup(s.accounts, (user, i))
  {
    var was := Lookup(s.accounts, (user, h));
    if was.Some? {
      GrantExtends(was.value, db, allowDrop);
    }
  }

  /** GRANT on both hosts: an account there must be; it keeps its password and gains the full set. */
  lemma GrantsBoth(s: Stores, db: string, user: string, allowDrop: bool, o: Outcome, q: Outcome)
    ensures var p := Privileges(allowDrop);
      var e := BothHosts(s, GrantOn(db, user, Loopback, p), GrantOn(db, user, Localhost, p), o, q);
      var was, now := PairOf(s, user), PairOf(e.stores, user);
      var first := was.loopback.Some? && o.Applies();
      var second := was.loopback.Some? && o.Done? && was.localhost.Some? && q.Applies();
      && e.reply == (if second && q.Done? then Ok else Err) && OnlyUser(s, e.stores, user)
      && (if first then Extends(was.loopback, now.loopback, db, allowDrop) else now.loopback == was.loopback)
      && (if second then Extends(was.localhost, now.localhost, db, allowDrop) else now.localhost == was.localhost)
  {
    GrantsOne(s, db, user, Loopback, allowDrop, o);
    var e := Perform(s, GrantOn(db, user, Loopback, Privileges(allowDrop)), o);
    if e.reply.Ok? {
      GrantsOne(e.stores, db, user, Localhost, allowDrop, q);
    }
  }

  const HOSTS := [Loopback, Localhost]

  class Provisioner {
    var dbs: set<string>
    var accounts: map<(string, Host), Account>
    const journal: Journal
    ghost var sent: seq<Action> // the statements the server has received

    constructor (dbs: set<string>, accounts: map<(string, Host), Account>, journal: Journal)
      ensures this.dbs == dbs && this.accounts == accounts && this.journal == journal
    {
      this.dbs, this.accounts, this.journal, sent := dbs, accounts, journal, [];
    }

    /** The server's part of the state. */
    ghost function View(): Stores
      reads this
    {
      Stores(map[], dbs, accounts, map[])
    }

    /** The server executes one statement. */
    method Exec(a: Action) returns (ok: bool, ghost o: Outcome)
      requires OnServer(a)
      modifies this, journal
      ensures Effect(View(), if ok then Ok else Err) == Perform(old(View()), a, o)
      ensures journal.outcomes == old(journal.outcomes) + [o] && sent == old(sent) + [a]
    {
      var fails: bool := *;
      var applied: bool := *;
      var outcome := if fails then Failed(applied) else Done;
      o := outcome;
      ok := !fails;
      if OnDatabase(a) {
        dbs := AssignMember(dbs, a.db, DatabaseStep(a.db in dbs, a, outcome).cell);
      } else if OnAccount(a) {
        var e := AccountStep(Lookup(accounts, (a.user, a.host)), a, outcome);
        accounts := Assign(accounts, (a.user, a.host), e.cell);
        ok := e.reply.Ok?;
      }
      sent := sent + [a];
      journal.Note(o);
    }

    /** An identifier that cannot be embedded is refused before anything is sent. */
    ghost method Refuse(a: Action) returns (o: Outcome)
      requires OnServer(a)
      modifies journal
      ensures o == Failed(false) && Effect(View(), Err) == Perform(old(View()), a, o)
      ensures journal.outcomes == old(journal.outcomes) + [o]
    {
      o := Failed(false);
      NothingSent(View(), a);
      journal.Note(o);
    }

    method EnsureDatabase(db: string) returns (ok: bool, ghost o: Outcome)
      modifies this, journal
      ensures !AssertIdentifier(db) ==> o == Failed(false)
      ensures Effect(View(), if ok then Ok else Err) == Perform(old(View()), CreateDatabase(db), o)
      ensures sent == old(sent) + if AssertIdentifier(db) then [CreateDatabase(db)] else []
      ensures accounts == old(accounts) && dbs == old(dbs) + (if o.Applies() then {db} else {}) && (ok <==> o.Done?)
      ensures journal.outcomes == old(journal.outcomes) + [o]
    {
      if AssertIdentifier(db) {
        ok, o := Exec(CreateDatabase(db));
      } else {
        ok := false;
        o := Refuse(CreateDatabase(db));
      }
    }

    method DropDatabase(db: string) returns (ok: bool, ghost o: Outcome)
      modifies this, journal
      ensures !AssertIdentifier(db) ==> o == Failed(false)
      ensures Effect(View(), if ok then Ok else Err) == Perform(old(View()), Action.DropDatabase(db), o)
      ensures sent == old(sent) + if AssertIdentifier(db) then [Action.DropDatabase(db)] else []
      ensures accounts == old(accounts) && dbs == old(dbs) - (if o.Applies() then {db} else {}) && (ok <==> o.Done?)
      ensures journal.outcomes == old(journal.outcomes) + [o]
    {
      if AssertIdentifier(db) {
        ok, o := Exec(Action.DropDatabase(db));
      } else {
        ok := false;
        o := Refuse(Action.DropDatabase(db));
      }
    }

    /** An unsafe password would panic when it is quoted, so the caller must not pass one. */
    method EnsureUser(user: string, password: string) returns (ok: bool, ghost o: Outcome, ghost q: Outcome)
      requires password != "" ==> IsSafePasswordLiteral(password)
      modifies this, journal
      ensures !AssertIdentifier(user) || password == "" ==> o == Failed(false)
      ensures var first, second := CreateUser(user, Loopback, password), CreateUser(user, Localhost, password);
        && Effect(View(), if ok then Ok else Err) == BothHosts(old(View()), first, second, o, q)
        && journal.outcomes == old(journal.outcomes) + Met(old(View()), first, o, q)
        && sent == old(sent) +
             if !AssertIdentifier(user) || password == "" then [] else Sent(old(View()), first, second, o)
      ensures ok ==> var was := PairOf(old(View()), user);
        PairOf(View(), user) == Pair(if was.loopback.Some? then was.loopback else Some(Account(password, {})),
                                     if was.localhost.Some? then was.localhost else Some(Account(password, {})))
    {
      ghost var s, past, before := View(), journal.outcomes, sent;
      ghost var first, second := CreateUser(user, Loopback, password), CreateUser(user, Localhost, password);
      ok, o, q := true, Done, Done;
      if !AssertIdentifier(user) || password == "" {
        ok := false;
        o := Refuse(first);
        return;
      }
      for i := 0 to |HOSTS|
        invariant ok && (i > 0 ==> o.Done?)
        invariant i == 0 ==> View() == s && journal.outcomes == past && sent == before
        invariant i == 1 ==> Effect(View(), Ok) == Perform(s, first, o)
        invariant i == 1 ==> journal.outcomes == past + [o] && sent == before + [first]
        invariant i == 2 ==> Effect(View(), Ok) == BothHosts(s, first, second, o, q)
        invariant i == 2 ==> journal.outcomes == past + [o, q] && sent == before + [first, second]
      {
        assert QuoteMySQLString(password).Some?;
        ghost var outcome: Outcome;
        ok, outcome := Exec(CreateUser(user, HOSTS[i], password));
        if i == 0 {
          o := outcome;
        } else {
          q := outcome;
        }
        if !ok {
          return;
        }
      }
      CreatesBoth(s, user, password, o, q);
    }

    /** Succeeds only if both accounts exist. */
    method SetUserPassword(user: string, password: string) returns (ok: bool, ghost o: Outcome, ghost q: Outcome)
      requires password != "" ==> IsSafePasswordLiteral(password)
      modifies this, journal
      ensures !AssertIdentifier(user) || password == "" ==> o == Failed(false)
      ensures var first, second := AlterUser(user, Loopback, password), AlterUser(user, Localhost, password);
        && Effect(View(), if ok then Ok else Err) == BothHosts(old(View()), first, second, o, q)
        && journal.outcomes == old(journal.outcomes) + Met(old(View()), first, o, q)
        && sent == old(sent) +
             if !AssertIdentifier(user) || password == "" then [] else Sent(old(View()), first, second, o)
      ensures ok ==> var was := PairOf(old(View()), user);
        && was.loopback.Some? && was.localhost.Some?
        && PairOf(View(), user) == Pair(Some(Account(password, was.loopback.value.grants)),
                                        Some(Account(password, was.localhost.value.grants)))
    {
      ghost var s, past, before := View(), journal.outcomes, sent;
      ghost var first, second := AlterUser(user, Loopback, password), AlterUser(user, Localhost, password);
      ok, o, q := true, Done, Done;
      if !AssertIdentifier(user) || password == "" {
        ok := false;
        o := Refuse(first);
        return;
      }
      for i := 0 to |HOSTS|
        invariant ok && (i > 0 ==> o.Done?)
        invariant i == 0 ==> View() == s && journal.outcomes == past && sent == before
        invariant i == 1 ==> Effect(View(), Ok) == Perform(s, first, o)
        invariant i == 1 ==> journal.outcomes == past + [o] && sent == before + [first]
        invariant i == 2 ==> Effect(View(), Ok) == BothHosts(s, first, second, o, q)
        invariant i == 2 ==> journal.outcomes == past + [o, q] && sent == before + [first, second]
      {
        assert QuoteMySQLString(password).Some?;
        ghost var outcome: Outcome;
        ok, outcome := Exec(AlterUser(user, HOSTS[i], password));
        if i == 0 {
          o := outcome;
        } else {
          q := outcome;
        }
        if !ok {
          return;
        }
      }
      AltersBoth(s, user, password, o, q);
    }

    /** A missing account is no error. */
    method DropUser(user: string) returns (ok: bool, ghost o: Outcome, ghost q: Outcome)
      modifies this, journal
      ensures !AssertIdentifier(user) ==> o == Failed(false)
      ensures var first, second := Action.DropUser(user, Loopback), Action.DropUser(user, Localhost);
        && Effect(View(), if ok then Ok else Err) == BothHosts(old(View()), first, second, o, q)
        && journal.outcomes == old(journal.outcomes) + Met(old(View()), first, o, q)
        && sent == old(sent) + if !AssertIdentifier(user) then [] else Sent(old(View()), first, second, o)
      ensures ok ==> PairOf(View(), user) == Pair(None, None)
    {
      ghost var s, past, before := View(), journal.outcomes, sent;
      ghost var first, second := Action.DropUser(user, Loopback), Action.DropUser(user, Localhost);
      ok, o, q := true, Done, Done;
      if !AssertIdentifier(user) {
        ok := false;
        o := Refuse(first);
        return;
      }
      for i := 0 to |HOSTS|
        invariant ok && (i > 0 ==> o.Done?)
        invariant i == 0 ==> View() == s && journal.outcomes == past && sent == before
        invariant i == 1 ==> Effect(View(), Ok) == Perform(s, first, o)
        invariant i == 1 ==> journal.outcomes == past + [o] && sent == before + [first]
        invariant i == 2 ==> Effect(View(), Ok) == BothHosts(s, first, second, o, q)
        invariant i == 2 ==> journal.outcomes == past + [o, q] && sent == before + [first, second]
      {
        ghost var outcome: Outcome;
        ok, outcome := Exec(Action.DropUser(user, HOSTS[i]));
        if i == 0 {
          o := outcome;
        } else {
          q := outcome;
        }
        if !ok {
          return;
        }
      }
      DropsBoth(s, user, o, q);
    }

    /** The loop over the hosts. */
    method GrantOnHosts(db: string, user: string, privileges: set<Privilege>)
      returns (ok: bool, ghost o: Outcome, ghost q: Outcome)
      modifies this, journal
      ensures var first, second := GrantOn(db, user, Loopback, privileges), GrantOn(db, user, Localhost, privileges);
        && Effect(View(), if ok then Ok else Err) == BothHosts(old(View()), first, second, o, q)
        && journal.outcomes == old(journal.outcomes) + Met(old(View()), first, o, q)
        && sent == old(sent) + Sent(old(View()), first, second, o)
    {
      ghost var s, past, before := View(), journal.outcomes, sent;
      ghost var first, second := GrantOn(db, user, Loopback, privileges), GrantOn(db, user, Localhost, privileges);
      ok, o, q := true, Done, Done;
      for i := 0 to |HOSTS|
        invariant ok && (i > 0 ==> o.Done?)
        invariant i == 0 ==> View() == s && journal.outcomes == past && sent == before
        invariant i == 1 ==> Effect(View(), Ok) == Perform(s, first, o)
        invariant i == 1 ==> journal.outcomes == past + [o] && sent == before + [first]
        invariant i == 2 ==> Effect(View(), Ok) == BothHosts(s, first, second, o, q)
        invariant i == 2 ==> journal.outcomes == past + [o, q] && sent == before + [first, second]
      {
        ghost var outcome: Outcome;
        ok, outcome := Exec(GrantOn(db, user, HOSTS[i], privileges));
        if i == 0 {
          o := outcome;
        } else {
          q := outcome;
        }
        if !ok {
          return;
        }
      }
    }

    /** Grants on both hosts, then flushes; `flush` is the outcome of the last statement if it ran. */
    method GrantProjectPrivileges(db: string, user: string, allowDrop: bool)
      returns (ok: bool, ghost o: Outcome, ghost q: Outcome, ghost flush: Outcome)
      modifies this, journal
      ensures !AssertIdentifier(db) || !AssertIdentifier(user) ==> o == Failed(false)
      ensures var p := Privileges(allowDrop);
        var first, second := GrantOn(db, user, Loopback, p), GrantOn(db, user, Localhost, p);
        var e := BothHosts(old(View()), first, second, o, q);
        && View() == e.stores && (ok <==> e.reply.Ok? && flush.Done?)
        && journal.outcomes ==
           old(journal.outcomes) + Met(old(View()), first, o, q) + (if e.reply.Ok? then [flush] else [])
        && sent == old(sent) +
             if !AssertIdentifier(db) || !AssertIdentifier(user) then []
             else Sent(old(View()), first, second, o) + (if e.reply.Ok? then [FlushPrivileges] else [])
      ensures ok ==> var was, now := PairOf(old(View()), user), PairOf(View(), user);
        Extends(was.loopback, now.loopback, db, allowDrop) && Extends(was.localhost, now.localhost, db, allowDrop)
    {
      ghost var s := View();
      q, flush := Done, Done;
      var privileges := {SELECT, INSERT, UPDATE, DELETE, CREATE, ALTER, INDEX, REFERENCES};
      if allowDrop {
        privileges := privileges + {DROP};
      }
      assert privileges == Privileges(allowDrop);
      if !AssertIdentifier(db) || !AssertIdentifier(user) {
        ok := false;
        o := Refuse(GrantOn(db, user, Loopback, privileges));
        return;
      }
      ok, o, q := GrantOnHosts(db, user, privileges);
      if ok {
        GrantsBoth(s, db, user, allowDrop, o, q);
        ok, flush := Exec(FlushPrivileges);
      }
    }
  }
}

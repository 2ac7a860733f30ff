/**
 The state the service keeps outside itself, the statements that change it, and
 what one statement does for every outcome the environment may pick. The last
 part cuts the state into the slice that belongs to one project.
 */
module Stores {
  import opened Common
  import opened EnvFile

  // ---------------------------------------------------------------- state

  datatype Host = Loopback | Localhost

  datatype Privilege = SELECT | INSERT | UPDATE | DELETE | CREATE | ALTER | INDEX | REFERENCES | DROP

  /** A privilege on the database with the given name. */
  type Grant = (string, Privilege)

  datatype Account = Account(password: string, grants: set<Grant>)

  datatype Status = Pending | Ready | Error | Deleted

  /** Which call of an operation went wrong; stands for the error text. */
  datatype Fault =
    | NoFault | LookupFault | MissingFault | InsertFault | DrawFault | DatabaseFault | UserFault | GrantFault
    | SecretFault | StatusFault | FinalFault | AlterFault
    | DropDatabaseFault | DropUserFault | RemoveSecretFault | DeleteRowFault
    | InvalidNameFault | ConfirmationMissing | ConfirmationMismatch

  datatype Row = Row(database: string, user: string, status: Status, lastError: Fault)

  datatype Stores = Stores(
    rows: map<string, Row>,
    dbs: set<string>,
    accounts: map<(string, Host), Account>,
    files: map<string, Secret>)

  datatype Operation = CreateOp | RotateOp | DeleteOp

  datatype Message = CreatedMsg | IdempotentMsg | RotatedMsg | DeletedMsg | FaultMsg(fault: Fault) | PartialMsg(faults: seq<Fault>)

  /** One audit record. */
  datatype Record = Record(op: Operation, name: string, success: bool, message: Message)

  // ---------------------------------------------------------------- statements

  datatype Action =
    | GetProject(name: string)
    | CreateProject(name: string, row: Row)
    | UpdateProjectStatus(name: string, status: Status, lastError: Fault)
    | DeleteProject(name: string)
    | CreateDatabase(db: string)
    | DropDatabase(db: string)
    | CreateUser(user: string, host: Host, password: string)
    | AlterUser(user: string, host: Host, password: string)
    | DropUser(user: string, host: Host)
    | GrantOn(db: string, user: string, host: Host, privileges: set<Privilege>)
    | FlushPrivileges
    | WriteSecret(secret: Secret)
    | RemoveSecret(name: string)
    | WriteAudit(record: Record)
    | DrawPassword

  /** What the environment does with a statement; a failed one may still have taken effect. */
  datatype Outcome = Done | Failed(applied: bool)
  {
    predicate Applies() {
      Done? || applied
    }
  }

  datatype Reply = Ok | Found(row: Row) | Missing | Conflict | Err

  function ReplyTo(o: Outcome): Reply {
    if o.Done? then Ok else Err
  }

  /** What a statement leaves in the cell it works on, and what it answers. */
  datatype CellEffect<V> = CellEffect(cell: V, reply: Reply)

  predicate OnRow(a: Action) {
    a.GetProject? || a.CreateProject? || a.UpdateProjectStatus? || a.DeleteProject?
  }

  predicate OnDatabase(a: Action) {
    a.CreateDatabase? || a.DropDatabase?
  }

  predicate OnAccount(a: Action) {
    a.CreateUser? || a.AlterUser? || a.DropUser? || a.GrantOn?
  }

  predicate OnFile(a: Action) {
    a.WriteSecret? || a.RemoveSecret?
  }

  /** The project row: inserting an existing name is a conflict, updating or deleting a missing one succeeds. */
  function RowStep(c: Option<Row>, a: Action, o: Outcome): CellEffect<Option<Row>>
    requires OnRow(a)
  {
    match a
    case GetProject(_) =>
      CellEffect(c, if !o.Done? then Err else if c.Some? then Found(c.value) else Missing)
    case CreateProject(_, row) =>
      if c.Some? then CellEffect(c, if o.Done? then Conflict else Err)
      else CellEffect(if o.Applies() then Some(row) else c, ReplyTo(o))
    case UpdateProjectStatus(_, status, lastError) =>
      CellEffect(if o.Applies() && c.Some? then Some(c.value.(status := status, lastError := lastError)) else c, ReplyTo(o))
    case DeleteProject(_) => CellEffect(if o.Applies() then None else c, ReplyTo(o))
  }

  /** CREATE DATABASE IF NOT EXISTS and DROP DATABASE IF EXISTS. */
  function DatabaseStep(c: bool, a: Action, o: Outcome): CellEffect<bool>
    requires OnDatabase(a)
  {
    CellEffect(if o.Applies() then a.CreateDatabase? else c, ReplyTo(o))
  }

  /**
   CREATE USER IF NOT EXISTS keeps an existing account as it is; ALTER USER and
   GRANT fail for a missing account; DROP USER IF EXISTS always succeeds.
   */
  function AccountStep(c: Option<Account>, a: Action, o: Outcome): CellEffect<Option<Account>>
    requires OnAccount(a)
  {
    match a
    case CreateUser(_, _, password) =>
      CellEffect(if o.Applies() && c.None? then Some(Account(password, {})) else c, ReplyTo(o))
    case AlterUser(_, _, password) =>
      if c.None? then CellEffect(c, Err)
      else CellEffect(if o.Applies() then Some(c.value.(password := password)) else c, ReplyTo(o))
    case DropUser(_, _) => CellEffect(if o.Applies() then None else c, ReplyTo(o))
    case GrantOn(db, _, _, privileges) =>
      if c.None? then CellEffect(c, Err)
      else CellEffect(if o.Applies() then Some(Granted(c.value, db, privileges)) else c, ReplyTo(o))
  }

  /** A rejected or failed secret write leaves the final file as it was. */
  function FileStep(c: Option<Secret>, a: Action, o: Outcome): CellEffect<Option<Secret>>
    requires OnFile(a)
  {
    match a
    case WriteSecret(secret) =>
      if Accepts(secret) && o.Done? then CellEffect(Some(secret), Ok) else CellEffect(c, Err)
    case RemoveSecret(_) => CellEffect(if o.Applies() then None else c, ReplyTo(o))
  }

  function Lookup<K, V>(m: map<K, V>, k: K): Option<V> {
    if k in m then Some(m[k]) else None
  }

  function Assign<K, V>(m: map<K, V>, k: K, v: Option<V>): map<K, V> {
    if v.Some? then m[k := v.value] else m - {k}
  }

  function AssignMember(m: set<string>, k: string, member: bool): set<string> {
    if member then m + {k} else m - {k}
  }

  function FileKey(a: Action): string
    requires OnFile(a)
  {
    if a.WriteSecret? then a.secret.name else a.name
  }

  datatype Effect = Effect(stores: Stores, reply: Reply)

  /** One statement on the whole state. */
  function Perform(s: Stores, a: Action, o: Outcome): Effect {
    if OnRow(a) then
      var e := RowStep(Lookup(s.rows, a.name), a, o);
      Effect(s.(rows := Assign(s.rows, a.name, e.cell)), e.reply)
    else if OnDatabase(a) then
      var e := DatabaseStep(a.db in s.dbs, a, o);
      Effect(s.(dbs := AssignMember(s.dbs, a.db, e.cell)), e.reply)
    else if OnAccount(a) then
      var e := AccountStep(Lookup(s.accounts, (a.user, a.host)), a, o);
      Effect(s.(accounts := Assign(s.accounts, (a.user, a.host), e.cell)), e.reply)
    else if OnFile(a) then
      var e := FileStep(Lookup(s.files, FileKey(a)), a, o);
      Effect(s.(files := Assign(s.files, FileKey(a), e.cell)), e.reply)
    else
      Effect(s, ReplyTo(o))
  }

  function GrantSet(db: string, privileges: set<Privilege>): set<Grant> {
    set p | p in privileges :: (db, p)
  }

  function Granted(a: Account, db: string, privileges: set<Privilege>): Account {
    a.(grants := a.grants + GrantSet(db, privileges))
  }

  /** The audit records a statement appends. */
  function Emitted(a: Action, o: Outcome): seq<Record> {
    if a.WriteAudit? && o.Applies() then [a.record] else []
  }

  /** The names a reader of the success records believes to be in service. */
  function ReplayAudit(audit: seq<Record>): set<string> {
    if audit == [] then {} else ReplayRecord(ReplayAudit(audit[..|audit| - 1]), audit[|audit| - 1])
  }

  function ReplayRecord(names: set<string>, r: Record): set<string> {
    if r.success && r.message.CreatedMsg? then names + {r.name}
    else if r.success && r.message.DeletedMsg? then names - {r.name}
    else names
  }

  // ---------------------------------------------------------------- one project's slice

  /** The name of a project with its two MySQL identifiers. */
  datatype Keys = Keys(name: string, db: string, user: string)

  /** Two projects share neither name nor identifiers. */
  predicate Apart(j: Keys, k: Keys) {
    j.name != k.name && j.db != k.db && j.user != k.user
  }

  datatype Slice = Slice(
    row: Option<Row>,
    db: bool,
    loopback: Option<Account>,
    localhost: Option<Account>,
    file: Option<Secret>,
    listed: bool)
  {
    function At(h: Host): Option<Account> {
      if h.Loopback? then loopback else localhost
    }

    function With(h: Host, a: Option<Account>): Slice {
      if h.Loopback? then this.(loopback := a) else this.(localhost := a)
    }
  }

  function SliceOf(s: Stores, audit: seq<Record>, k: Keys): Slice {
    Slice(Lookup(s.rows, k.name), k.db in s.dbs,
          Lookup(s.accounts, (k.user, Loopback)), Lookup(s.accounts, (k.user, Localhost)),
          Lookup(s.files, k.name), k.name in ReplayAudit(audit))
  }

  /** Every key the statement mentions belongs to the project. */
  predicate Owns(k: Keys, a: Action) {
    && (OnRow(a) ==> a.name == k.name)
    && (OnDatabase(a) ==> a.db == k.db)
    && (OnAccount(a) ==> a.user == k.user && (a.GrantOn? ==> a.db == k.db))
    && (OnFile(a) ==> FileKey(a) == k.name)
    && (a.WriteAudit? ==> a.record.name == k.name)
  }

  datatype SliceEffect = SliceEffect(slice: Slice, reply: Reply)

  /** The same statement seen by the project that owns its keys. */
  function PerformOnSlice(s: Slice, a: Action, o: Outcome): SliceEffect {
    if OnRow(a) then
      var e := RowStep(s.row, a, o);
      SliceEffect(s.(row := e.cell), e.reply)
    else if OnDatabase(a) then
      var e := DatabaseStep(s.db, a, o);
      SliceEffect(s.(db := e.cell), e.reply)
    else if OnAccount(a) then
      var e := AccountStep(s.At(a.host), a, o);
      SliceEffect(s.With(a.host, e.cell), e.reply)
    else if OnFile(a) then
      var e := FileStep(s.file, a, o);
      SliceEffect(s.(file := e.cell), e.reply)
    else if a.WriteAudit? && o.Applies() then
      SliceEffect(s.(listed := Lists(s.listed, a.record)), ReplyTo(o))
    else
      SliceEffect(s, ReplyTo(o))
  }

  function Lists(listed: bool, r: Record): bool {
    if r.success && r.message.CreatedMsg? then true
    else if r.success && r.message.DeletedMsg? then false
    else listed
  }

  lemma ReplayAppend(audit: seq<Record>, a: Action, o: Outcome)
    ensures ReplayAudit(audit + Emitted(a, o)) ==
      if a.WriteAudit? && o.Applies() then ReplayRecord(ReplayAudit(audit), a.record) else ReplayAudit(audit)
  {
    if a.WriteAudit? && o.Applies() {
      assert (audit + [a.record])[..|audit|] == audit;
    } else {
      assert audit + Emitted(a, o) == audit;
    }
  }

  lemma OwnerSeesAccount(s: Stores, audit: seq<Record>, k: Keys, a: Action, o: Outcome)
    requires Owns(k, a) && OnAccount(a)
    ensures SliceOf(Perform(s, a, o).stores, audit, k) == PerformOnSlice(SliceOf(s, audit, k), a, o).slice
    ensures Perform(s, a, o).reply == PerformOnSlice(SliceOf(s, audit, k), a, o).reply
  {
    var x := (k.user, a.host);
    assert Lookup(s.accounts, x) == SliceOf(s, audit, k).At(a.host);
  }

  /** The owner of a statement sees exactly the slice-level effect and the same reply. */
  lemma OwnerSeesEffect(s: Stores, audit: seq<Record>, k: Keys, a: Action, o: Outcome)
    requires Owns(k, a)
    ensures SliceOf(Perform(s, a, o).stores, audit + Emitted(a, o), k) == PerformOnSlice(SliceOf(s, audit, k), a, o).slice
    ensures Perform(s, a, o).reply == PerformOnSlice(SliceOf(s, audit, k), a, o).reply
  {
    if OnAccount(a) {
      OwnerSeesAccount(s, audit, k, a, o);
      assert audit + Emitted(a, o) == audit;
    } else if a.WriteAudit? {
      ReplayAppend(audit, a, o);
    } else {
      assert audit + Emitted(a, o) == audit;
    }
  }

  /** A project apart from the owner sees nothing. */
  lemma OthersSeeNothing(s: Stores, audit: seq<Record>, j: Keys, k: Keys, a: Action, o: Outcome)
    requires Owns(k, a) && Apart(j, k)
    ensures SliceOf(Perform(s, a, o).stores, audit + Emitted(a, o), j) == SliceOf(s, audit, j)
  {
    ReplayAppend(audit, a, o);
  }

  lemma AssignsCommute<K, V>(m: map<K, V>, j: K, u: Option<V>, k: K, v: Option<V>)
    requires j != k
    ensures Assign(Assign(m, j, u), k, v) == Assign(Assign(m, k, v), j, u)
    ensures Lookup(Assign(m, j, u), k) == Lookup(m, k) && Lookup(Assign(m, k, v), j) == Lookup(m, j)
  {
  }

  lemma RowsCommute(s: Stores, a: Action, p: Outcome, b: Action, q: Outcome)
    requires OnRow(a) && OnRow(b) && a.name != b.name
    ensures Perform(Perform(s, a, p).stores, b, q).stores == Perform(Perform(s, b, q).stores, a, p).stores
    ensures Perform(Perform(s, a, p).stores, b, q).reply == Perform(s, b, q).reply
  {
    AssignsCommute(s.rows, a.name, RowStep(Lookup(s.rows, a.name), a, p).cell, b.name, RowStep(Lookup(s.rows, b.name), b, q).cell);
  }

  lemma AccountsCommute(s: Stores, a: Action, p: Outcome, b: Action, q: Outcome)
    requires OnAccount(a) && OnAccount(b) && a.user != b.user
    ensures Perform(Perform(s, a, p).stores, b, q).stores == Perform(Perform(s, b, q).stores, a, p).stores
    ensures Perform(Perform(s, a, p).stores, b, q).reply == Perform(s, b, q).reply
  {
    var x, y := (a.user, a.host), (b.user, b.host);
    AssignsCommute(s.accounts, x, AccountStep(Lookup(s.accounts, x), a, p).cell, y, AccountStep(Lookup(s.accounts, y), b, q).cell);
  }

  lemma FilesCommute(s: Stores, a: Action, p: Outcome, b: Action, q: Outcome)
    requires OnFile(a) && OnFile(b) && FileKey(a) != FileKey(b)
    ensures Perform(Perform(s, a, p).stores, b, q).stores == Perform(Perform(s, b, q).stores, a, p).stores
    ensures Perform(Perform(s, a, p).stores, b, q).reply == Perform(s, b, q).reply
  {
    var x, y := FileKey(a), FileKey(b);
    var u, v := FileStep(Lookup(s.files, x), a, p).cell, FileStep(Lookup(s.files, y), b, q).cell;
    AssignsCommute(s.files, x, u, y, v);
    assert Perform(s, a, p).stores.files == Assign(s.files, x, u);
    assert Perform(s, b, q).stores.files == Assign(s.files, y, v);
  }

  lemma DatabasesCommute(s: Stores, a: Action, p: Outcome, b: Action, q: Outcome)
    requires OnDatabase(a) && OnDatabase(b) && a.db != b.db
    ensures Perform(Perform(s, a, p).stores, b, q).stores == Perform(Perform(s, b, q).stores, a, p).stores
    ensures Perform(Perform(s, a, p).stores, b, q).reply == Perform(s, b, q).reply
  {
    assert Perform(Perform(s, a, p).stores, b, q).stores.dbs == Perform(Perform(s, b, q).stores, a, p).stores.dbs;
  }

  predicate SameStore(a: Action, b: Action) {
    (OnRow(a) && OnRow(b)) || (OnDatabase(a) && OnDatabase(b)) || (OnAccount(a) && OnAccount(b)) || (OnFile(a) && OnFile(b))
  }

  lemma RowAgainstOther(s: Stores, a: Action, p: Outcome, b: Action, q: Outcome)
    requires !SameStore(a, b) && OnRow(a)
    ensures Perform(Perform(s, a, p).stores, b, q).stores == Perform(Perform(s, b, q).stores, a, p).stores
    ensures Perform(Perform(s, a, p).stores, b, q).reply == Perform(s, b, q).reply
  {
  }

  lemma AccountAgainstOther(s: Stores, a: Action, p: Outcome, b: Action, q: Outcome)
    requires !SameStore(a, b) && OnAccount(a)
    ensures Perform(Perform(s, a, p).stores, b, q).stores == Perform(Perform(s, b, q).stores, a, p).stores
    ensures Perform(Perform(s, a, p).stores, b, q).reply == Perform(s, b, q).reply
  {
  }

  lemma OtherAgainstOther(s: Stores, a: Action, p: Outcome, b: Action, q: Outcome)
    requires !SameStore(a, b) && !OnRow(a) && !OnAccount(a)
    ensures Perform(Perform(s, a, p).stores, b, q).stores == Perform(Perform(s, b, q).stores, a, p).stores
    ensures Perform(Perform(s, a, p).stores, b, q).reply == Perform(s, b, q).reply
  {
  }

  /** Statements of projects that are apart commute, replies included. */
  lemma StatementsCommute(s: Stores, j: Keys, a: Action, p: Outcome, k: Keys, b: Action, q: Outcome)
    requires Owns(j, a) && Owns(k, b) && Apart(j, k)
    ensures Perform(Perform(s, a, p).stores, b, q).stores == Perform(Perform(s, b, q).stores, a, p).stores
    ensures Perform(Perform(s, a, p).stores, b, q).reply == Perform(s, b, q).reply
  {
    if !SameStore(a, b) {
      if OnRow(a) {
        RowAgainstOther(s, a, p, b, q);
      } else if OnAccount(a) {
        AccountAgainstOther(s, a, p, b, q);
      } else {
        OtherAgainstOther(s, a, p, b, q);
      }
    } else if OnRow(a) {
      RowsCommute(s, a, p, b, q);
    } else if OnAccount(a) {
      AccountsCommute(s, a, p, b, q);
    } else if OnFile(a) {
      FilesCommute(s, a, p, b, q);
    } else {
      DatabasesCommute(s, a, p, b, q);
    }
  }
}

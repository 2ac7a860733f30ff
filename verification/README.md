# Verification of the project provisioning service

A Dafny model of the service that gives every project its own MySQL database,
two accounts and an env file, and proofs about it. `dafny verify
dfyconfig.toml` checks everything.

The service keeps four stores in step: project rows, the MySQL server, one
secret file per project, and the audit log. Every statement on any of them may
succeed, fail without effect, or fail after taking effect; calls run
concurrently under mutexes found by name in tables that fill lazily; and the
process may crash between any two statements. The model has these layers.

- **Text** (`Names`, `SqlText`, `EnvFile`, `Urls`, `Passwords`): names and
  identifiers, quoting as MySQL's lexer reads it back, the GRANT wildcard rule,
  the env file and three readers of it, the in-place password generator.
- **Disk** (`Volume`): the crash-safe replacement of a secret file, system call
  by system call, on a disk that loses what was not synced.
- **Statements and calls** (`Stores`, `Calls`): the state, one statement with
  each outcome, and Create, Rotate and Delete as programs over statements. Each
  host of a two-host loop is one statement.
- **One project** (`Lifecycle`, `Failures`, `Rotation`, `Recovery`, `Answers`,
  `Facts`): the invariant that every statement keeps on the slice of the state
  that belongs to one project, the exact end of every Create and Delete and the
  exact course of every Rotate for every list of outcomes, what fault-free calls
  do from any state, what an answer says about the log, the row and the
  statements that failed, and what the recorded facts mean.
- **All calls** (`System`, `Locks`, `Serial`, `Safety`, `Theorems`): any number
  of calls, lock steps, interleavings and crashes; mutual exclusion, deadlock
  freedom, serialisability, and the properties of every reachable state.
- **The objects** (`Journals`, `Database`, `MySql`, `Provision`): the store, the
  provisioner, the lock tables and the service as classes whose methods change
  them in place, proved to end exactly as the programs of `Calls` say for the
  outcomes that the collaborators have entered in their common journal.

## Premises

- **Distinct identifiers.** Locks and rows go by project name, MySQL resources
  by derived identifiers, and `a-b` and `a_b` share them. The results about
  several names ask that no two of them share identifiers;
  `Names.CollisionsCharacterised` says exactly when two do.
- **Leftover accounts.** Creating an account that exists keeps its password, so
  the agreement of file and accounts asks that the Create met no such account.
- **Recorded facts.** `Lifecycle.Monitor` records the past of one project: a
  leftover account was met, a rotation is torn, a Delete has begun, a row went
  after a failed drop, the log is complete. No statement reads these records.
  `Facts` shows for a call on its own that a torn rotation, a leftover account, a
  begun Delete, an orphaning removal and a creation are recorded exactly when they
  occur, and that a call without failures keeps the log complete.
- **Crashes.** `System.Crash` is a crash of the process: it ends every call and
  drops the lock tables, and what statements did stays. Loss of power is modelled
  for the secret files alone, in `Volume`, and there a statement that has returned
  need not be durable: a write succeeds although its directory sync failed, and a
  deletion never syncs the directory (internal/secrets/secrets.go:94-97,
  internal/secrets/secrets.go:103-112). `Volume.OldFileSurvivesExactlyUntilSync`
  gives the exact consequence: the deleted or replaced file can come back as long
  as the directory has not been synced.
- **Healthy start.** A run starts from stores in which every name satisfies the
  invariant, for instance empty ones (`Safety.EmptyIsHealthy`).

## What the code does not do

Where the code and its own comments differ, the model follows the code.

- Rotation is announced as atomic (internal/provision/service.go:175-176). It
  is exactly when the first ALTER had no effect, or nothing at all is in the way
  of both ALTERs and the file (`Rotation.RotationIsAtomicExactly`). Otherwise the
  accounts and the file disagree, as in `Rotation.TornRotation`, and a Rotate of
  a name of 60 to 63 characters that alters an account always ends so.
- A failed secret write is said to let an operator retry it
  (internal/provision/service.go:156-157). A Create refuses the row in error. A
  Rotate does write the file, for a row of any status, and leaves the status as
  it is (`Rotation.RotateRestoresAgreement`), so the project is never ready
  again without a Delete and a Create (`Recovery.Recovery`).
- Deletion is said to revoke privileges first
  (internal/provision/service.go:241-242). It drops the database right away.
- The status "deleted" exists and is never stored (`Theorems.StoredStatuses`).
- A valid name of 60 to 63 characters passes every check but the secret
  writer's, so its Create always ends in error (`Recovery.LengthBound`).
- A Create can report an error for a ready project: exactly if its last lookup
  fails, or if the status update takes effect and yet fails
  (`Answers.ErrorForReadyProject`). A Rotate whose last lookup fails reports an
  error after logging a success (`Answers.OneFittingRecord`).

## Model

| member | source | states |
|---|---|---|
| Names.ValidateProjectName | internal/model/name.go:23-34 | accepts exactly the language of the name pattern, and tells empty and too long names apart from malformed ones |
| Names.NormalizedIsImageOfMiddle | internal/model/name.go:36-51 | for every input and any tables the normalised name is, character by character and up to 63 of them, the image of the middle of the input, without the white space and then the separators at its ends |
| Names.MiddleIsUnique | internal/model/name.go:40-44 | there is only one such middle, so this determines the normalised name |
| Names.NormalizedIsEmptyOrValid | internal/model/name.go:36-51 | for every input, and any case and white-space tables, the normalised name is empty or valid, and ends in a separator only at the length limit |
| Names.NormalizeValidName | internal/model/name.go:40-51 | on a valid name the normaliser only strips trailing separators |
| Names.NormalizeReachesFixedPoint | internal/model/name.go:40-51 | two applications always reach a fixed point; one is enough exactly when the first result does not end in a separator |
| Names.ProjectIdentifiers | internal/model/name.go:56-59 | the database is the name with underscores for hyphens and `_db` after it, the user the same with `_user` |
| Names.CollisionsCharacterised | internal/model/name.go:56-59 | two names share a database, and equally a user, exactly when they differ at most in which separator they use |
| SqlText.IdentifierLanguage | internal/mysqlx/provisioner.go:208-223 | accepted identifiers are nonempty and hold ASCII letters, digits and underscores only |
| SqlText.PasswordLanguage | internal/mysqlx/provisioner.go:244-273 | safe passwords are exactly those of 1 to 128 characters with these ASCII codes, so without quotes, backslash and control characters |
| SqlText.ProjectIdentifiersAreAccepted | internal/mysqlx/provisioner.go:204-223 | every valid name, up to the full 63 characters, gives identifiers the provisioner accepts |
| SqlText.QuotedPasswordRoundTrip | internal/mysqlx/provisioner.go:229-273 | quoting panics exactly on unsafe passwords, and MySQL's lexer reads a quoted one back as itself, whatever SQL follows |
| SqlText.QuotedIdentifierRoundTrip | internal/mysqlx/provisioner.go:208-223 | an accepted identifier between backticks is read back as itself |
| SqlText.WildMatchIsPositional | internal/mysqlx/provisioner.go:153-154 | the recursive wildcard rule, on names without `%` and backslash, is equality position by position with `_` matching anything |
| SqlText.GrantReachesExactlyShadows | internal/mysqlx/provisioner.go:139-163 | the grant of a project covers another's database exactly when the names have equal length and agree wherever the first has no separator |
| Passwords.EncodeRoundTrip | internal/model/secret.go:51 | the base64url text determines the random bytes |
| Passwords.EncodedAt | internal/model/secret.go:51 | each four characters are the characters of the URL-safe alphabet for the bits of their three bytes, most significant first |
| Passwords.SettleEntry | internal/model/secret.go:64-75 | the inner loop keeps an unused position and moves a used one to the smallest slot not used yet |
| Passwords.Deduplicate | internal/model/secret.go:61-76 | the in-place loops leave each position as it was if none before it took it, and else in the smallest slot that those before it leave |
| Passwords.Deduplicated | internal/model/secret.go:61-76 | the settled positions are pairwise distinct and in range |
| Passwords.DeduplicatedAt | internal/model/secret.go:61-76 | the same of the sequence of settled positions, entry by entry |
| Passwords.Settle | internal/model/secret.go:64-76 | a settled position is unused so far; it is the drawn one if that was unused, and else no smaller slot is unused |
| Passwords.Overwrite | internal/model/secret.go:77-80 | the four writes put one character of each class at its position and change nothing else |
| Passwords.RandomPassword | internal/model/secret.go:40-82 | returns the encoded bytes overwritten at the settled positions, or an error exactly when a draw fails |
| Passwords.GeneratedIsStrong | internal/model/secret.go:24-40 | for all random bytes the password has 32 characters, all four classes, and is safe to quote |
| Passwords.GeneratedText | internal/model/secret.go:40-82 | the password character by character: at the four drawn positions the drawn letter, capital, digit and special, everywhere else the base64url text of the bytes |
| EnvFile.AcceptedSecrets | internal/secrets/secrets.go:50-62 | the writer accepts a secret exactly if it has a password and its three names have 1 to 64 characters of the portable set |
| EnvFile.AcceptsUpTo59 | internal/secrets/secrets.go:50-62 | the writer accepts the secret of a valid name exactly if it has a password and the name at most 59 characters |
| EnvFile.RenderedLines | internal/secrets/secrets.go:114-139 | the file is two comment lines and six assignments, with these texts in this order |
| EnvFile.EnvRoundTrip | internal/secrets/secrets.go:114-139 | a line reader recovers every setting from the rendered file |
| EnvFile.EnvFileRecoversSecret | internal/secrets/secrets.go:114-139 | in particular the URL, host 127.0.0.1, port 3306, database, user and password, and nothing under any other key |
| Urls.LastAtRoundTrip | internal/secrets/secrets.go:118 | splitting the URL at the first colon and the last at-sign recovers user, password, host and database |
| Urls.StrictRoundTripCharacterised | internal/secrets/secrets.go:118 | a reader of section 3.2 of RFC 3986 recovers them exactly when the password holds none of the characters `#`, `@`, `%` and `^` |
| Urls.StrictReaderLosesHalf | internal/model/secret.go:80 | for every draw that strict reader recovers them exactly when the drawn special character is one of four of the eight, while the last-at reader always does |
| Volume.CrashReads | internal/secrets/secrets.go:47-49 | whatever a crash leaves under a path is one of the contents said to survive |
| Volume.RenameReplaces | internal/secrets/secrets.go:82-97 | renaming a synced file leaves old or new, now and after a crash, and only new once the directory is synced |
| Volume.TempFormExactly | internal/secrets/secrets.go:64 | the temporary names of a project are a dot, its name, a dot, anything, and `.tmp` |
| Volume.TempIsNoSecret | internal/secrets/secrets.go:64 | no temporary name is the final path of any project |
| Volume.CrashLeavesOldOrNew | internal/secrets/secrets.go:47-98 | after a crash at any step of a write a reader finds the complete old file or the complete new one |
| Volume.CrashSettles | internal/secrets/secrets.go:47-49 | after a crash every path is durable again, so the promise holds for the next write |
| Volume.OldFileSurvivesExactlyUntilSync | internal/secrets/secrets.go:94-112 | whatever happens to other paths, a crash can bring back a deleted or replaced file exactly as long as the directory has not been synced since |
| Volume.Writer.Fill | internal/secrets/secrets.go:73-88 | writes, sets the mode, syncs and closes in this order, only closing after a failure; on success the temporary file holds the whole text durably, and no other path is touched |
| Volume.Writer.Install | internal/secrets/secrets.go:89-98 | a failed rename changes nothing; a successful one makes the path read the new text, and durably so if the directory sync succeeded |
| Volume.Writer.Replace | internal/secrets/secrets.go:63-98 | at every step old or new; an error leaves the path as it was; success leaves no other new entry |
| Volume.Writer.Write | internal/secrets/secrets.go:50-99 | the same for the rendered secret, with the represented files updated; a secret that is not accepted makes no system call, any other exactly those of `WriteCalls`, and it succeeds exactly if all six steps do |
| Volume.Writer.Discard | internal/secrets/secrets.go:69-71 | the deferred removal undoes nothing of an installed file |
| Volume.Writer.Delete | internal/secrets/secrets.go:103-112 | afterwards the path holds its old content or nothing, other paths are untouched, and a missing file is no error |
| Volume.ReplacedRepresents | internal/secrets/secrets.go:34-37 | a replaced file changes the represented secrets of its own project only |
| Stores.OwnerSeesEffect | internal/provision/service.go:80-263 | a statement acts on its project's slice as it acts on the whole state, with the same reply |
| Stores.OthersSeeNothing | internal/provision/service.go:80-263 | a project with other identifiers sees nothing of it |
| Stores.StatementsCommute | internal/provision/service.go:57-69 | statements of projects with distinct identifiers commute, replies included |
| Calls.CallsEnd | internal/provision/service.go:80-263 | no call makes more than fourteen statements, whatever the outcomes |
| Lifecycle.StepKeeps | internal/provision/service.go:80-263 | every statement of every call, with every outcome, keeps the invariant of its project |
| Lifecycle.StatementMovesRow | internal/provision/service.go:106-162 | the only row changes are absent to pending, pending to ready or error, and any to absent, each by its own kind of call |
| Lifecycle.CrashKeepsSound | internal/provision/service.go:162-172 | a crash keeps it too, giving up the log's completeness only between a row change and its record |
| Failures.UndoUserRuns | internal/provision/service.go:146-151 | the rollback of a failed grant, whatever becomes of its own statements: what each drop and the mark leave |
| Failures.UndoDatabaseRuns | internal/provision/service.go:138-145 | the same for the rollback of a failed user creation |
| Failures.CreateRuns | internal/provision/service.go:90-172 | the exact state and answer of a Create for every list of outcomes, any valid name and whatever is left over of the project, rollbacks that fail included |
| Failures.DeleteRuns | internal/provision/service.go:232-262 | for every list of outcomes each removal happens exactly if its statement takes effect, whatever failed before it, but for the second account after a failure on the first; the answer lists the failures in order |
| Rotation.RotateRuns | internal/provision/service.go:185-211 | where a Rotate is after any outcomes and exactly what it has changed, whatever accounts, file and status it finds |
| Rotation.RotationIsAtomicExactly | internal/provision/service.go:175-209 | for any outcomes and any password not in use before, accounts and file are all as before or all carry the new password if and only if the first ALTER had no effect, or both accounts exist, the name has at most 59 characters, and both ALTERs and the write succeed |
| Rotation.TornRotation | internal/provision/service.go:198-204 | a run that ends with the new password on one account and the old one on the other and in the file |
| Rotation.RotateRestoresAgreement | internal/provision/service.go:193-211 | without failures and for a row of any status, accounts and file agree afterwards exactly if both accounts exist and the name has at most 59 characters; the row never changes, and otherwise the file stays and the answer is the first obstacle |
| Recovery.LengthBound | internal/provision/service.go:103-172 | a fault-free Create of a name without a row, whatever is left over of it, ends ready exactly up to 59 characters, else in error with database and accounts left |
| Recovery.DeleteRemovesEverything | internal/provision/service.go:232-262 | a fault-free Delete leaves no row, database, account or file |
| Recovery.RepairFromStores | internal/provision/service.go:80-263 | Delete if there is a row, Create, Rotate: ready, both accounts present, file agreeing with both |
| Recovery.Recovery | internal/provision/service.go:80-263 | the same from every reachable state, whatever failed before |
| Recovery.CreateLeavesExistingProject | internal/provision/service.go:90-101 | whatever the outcomes, a Create of a name with a row changes no store and answers with the ready row or a refusal |
| Answers.OneFittingRecord | internal/provision/service.go:283-309 | a call logs at most one record, about itself and fitting its answer; only refusals, failed lookups and failed draws go unlogged |
| Answers.ErrorForReadyProject | internal/provision/service.go:162-170 | for any outcomes, a Create that began without a row and ends in an error leaves a ready row exactly if its last lookup failed or its failed status update took effect; a row left in error stores the answered fault |
| Answers.AnswerNamesFailures | internal/provision/service.go:80-263 | for any outcomes, an error names the first statement that failed, a partial Delete all that failed in order, and any other answer means that none did |
| Answers.MissingProjectAnswer | internal/provision/service.go:185-240 | whatever the outcomes, a Rotate or Delete of a name without a row changes no store and answers that it is missing, or that the lookup failed |
| Facts.TornIsExact | internal/provision/service.go:193-209 | for any outcomes of a Rotate that finds agreement, a torn rotation is recorded exactly if file and accounts disagree afterwards |
| Facts.LeftoverIsExact | internal/mysqlx/provisioner.go:86-95 | a successful Create records a leftover account exactly if its file does not open both accounts, and no other excuse |
| Facts.DeletingIsExact | internal/provision/service.go:232-240 | for any outcomes a Delete is recorded as begun exactly if its lookup found the row |
| Facts.RemovalIsExact | internal/provision/service.go:244-256 | for any outcomes the removal of a row is marked exactly if it took effect, and as orphaning exactly if something else failed too |
| Facts.CreationIsExact | internal/provision/service.go:171-172 | for any outcomes a creation is marked exactly if the call returns a new project |
| Facts.FaultFreeKeepsExact | internal/provision/service.go:283-309 | a call without failures leaves the log as reliable as it was |
| Locks.EventKeepsLocks | internal/provision/service.go:57-69 | every step of every call, and a crash, keeps the lock invariant |
| Locks.MutualExclusion | internal/provision/service.go:57-69 | in every reachable state at most one call is in the critical section of a name |
| Locks.RegistriesOnlyGrow | internal/store/store.go:117-127 | short of a crash no step rebinds or drops a name in either table |
| Locks.LockOrder | internal/provision/service.go:85-88 | nobody waits for a per-name mutex while holding a table's mutex; a Create holds its create mutex whenever it holds a service mutex; others never touch one |
| Locks.SomeoneCanStep | internal/provision/service.go:57-69 | under the lock invariant an unfinished call implies a call that is not blocked |
| Locks.DeadlockFreedom | internal/store/store.go:117-127 | so in every reachable state with an unfinished call some call can step |
| Serial.RunKeyed | internal/provision/service.go:103-113 | whatever the outcomes, a call keeps its row naming its own identifiers |
| Serial.StatementCommutesWithCall | internal/provision/service.go:57-69 | a statement of one project moves past a whole call of another |
| Serial.Serialisable | internal/provision/service.go:57-69 | every run, crashes included, leaves the stores of the serial run in order of service-lock acquisition with the same outcomes, and every returned call has its serial result |
| Safety.EmptyIsHealthy | internal/store/store.go:45-64 | empty stores are a healthy start |
| Safety.EventKeepsSafe | internal/provision/service.go:57-263 | every event keeps the invariant of all names and calls |
| Safety.RunsAreSafe | internal/provision/service.go:57-263 | so it holds in every reachable state |
| Theorems.NoRowNoResources | internal/provision/service.go:114-161 | a name without a row has no database, account or file, unless its row went after a failed drop |
| Theorems.WriteAheadCover | internal/provision/service.go:106-161 | in every reachable state, process crashes included, every existing database, account and file belongs to a name with a row, as long as the last row removal of each name without one followed three successful drops |
| Theorems.ReadyMeansComplete | internal/provision/service.go:133-172 | a ready row no Delete has looked up has its database, both accounts with every privilege on it, DROP exactly if allowed, and no other, and a file naming them, under every failure |
| Theorems.CredentialAgreement | internal/provision/service.go:193-209 | its file opens both accounts, but for a leftover account, a torn rotation or a begun Delete |
| Theorems.GrantsStayOnOwnDatabase | internal/mysqlx/provisioner.go:139-163 | every privilege of an account is on its own database and from the fixed list, DROP only when allowed |
| Theorems.GrantIsolation | internal/mysqlx/provisioner.go:133-163 | by the wildcard rule an account reaches no database but those whose name it shadows, and a ready project reaches all of these |
| Theorems.AuditReplayOfName | internal/provision/service.go:162-172 | with no call at work on a name and its log complete, the success records tell whether it is ready |
| Theorems.AuditReplay | internal/provision/service.go:253-262 | with no call in progress the replayed success records are exactly the ready rows |
| Theorems.SingleCreation | internal/provision/service.go:85-125 | between two successful creations of a name some Delete removed its row |
| Theorems.ConflictUnreachable | internal/provision/service.go:114-122 | the branch for a conflicting insert is never taken |
| Theorems.StoredStatuses | internal/provision/service.go:311-314 | stored statuses are pending, ready and error, and exactly the last carries an error |
| Theorems.StatusMachine | internal/provision/service.go:106-162 | in any reachable state any event changes a row only as the status machine allows, and only a call on that name does |
| Database.LockRegistry.Lock | internal/provision/service.go:59-69 | locks the mutex of the name, binding it if new, and keeps every other binding and every other mutex as it is |
| Database.LockRegistry.Unlock | internal/store/store.go:126 | frees it again |
| Database.Store.GetProject | internal/store/store.go:181-186 | answers with the row, its absence, or an error |
| Database.Store.CreateProject | internal/store/store.go:158-178 | inserts under a unique name; a taken one is a conflict and stays as it is |
| Database.Store.UpdateProjectStatus | internal/store/store.go:209-215 | changes status and error of an existing row and nothing else |
| Database.Store.DeleteProject | internal/store/store.go:218-221 | removes the row, also if there is none |
| Database.Store.WriteAudit | internal/store/store.go:311-322 | appends the record |
| MySql.CreatesBoth | internal/mysqlx/provisioner.go:86-95 | what creating on both hosts leaves for every pair of outcomes: an account there was stays as it is, a new one has the password and no grants |
| MySql.AltersBoth | internal/mysqlx/provisioner.go:107-114 | the same for altering: an existing account changes its password only, a missing one is an error |
| MySql.DropsBoth | internal/mysqlx/provisioner.go:123-129 | the same for dropping: a missing account is no error, a failure on the first host leaves the second alone |
| MySql.GrantsBoth | internal/mysqlx/provisioner.go:146-158 | the same for granting: an account gains every privilege on the database, DROP exactly if allowed, and keeps its password |
| MySql.Provisioner.EnsureDatabase | internal/mysqlx/provisioner.go:54-63 | sends one statement, which creates the database; a bad identifier sends none, which is a failure without effect |
| MySql.Provisioner.DropDatabase | internal/mysqlx/provisioner.go:66-75 | likewise drops it |
| MySql.Provisioner.EnsureUser | internal/mysqlx/provisioner.go:79-97 | sends the statement for each host in order, stopping at the first error; after a success both accounts exist, and one there was keeps its password |
| MySql.Provisioner.SetUserPassword | internal/mysqlx/provisioner.go:100-116 | the same for altering; after a success both accounts have the password and their old grants |
| MySql.Provisioner.DropUser | internal/mysqlx/provisioner.go:119-131 | the same for dropping; after a success neither account exists |
| MySql.Provisioner.GrantProjectPrivileges | internal/mysqlx/provisioner.go:139-163 | grants on both hosts, then flushes, stopping at the first error; after a success both accounts have gained every privilege on the database, DROP exactly if allowed |
| Provision.Service.Create | internal/provision/service.go:80-173 | ends in the state, log and answer of the specified run with the outcomes journalled, inside both locks and with both free again, with a failed draw only if the random source failed; for an invalid name only its failure record is written |
| Provision.Service.Rotate | internal/provision/service.go:177-212 | the same for Rotate, with whatever identifiers the row holds |
| Provision.Service.Delete | internal/provision/service.go:216-263 | the same for Delete; a missing confirmation and a wrong one are told apart, and without the right one only the failure record is written |
| Provision.Service.ProvisionProject | internal/provision/service.go:133-161 | the part of Create after the draw, with the rollback of each failure |
| Provision.Service.Refuse | internal/provision/service.go:81-84 | a call refused before any lock makes one statement, the write of its failure record |
| Provision.PasswordIsUnseen | internal/provision/service.go:127-131 | until its draw a call runs the same whatever password it will draw |
| Provision.CallsKeepRowsKeyed | internal/provision/service.go:103-113 | every call keeps every row named after its own project's identifiers |

## Left out

- Get and List: unlocked reads, outside the order of the calls.
- HTTP routing, error envelopes, tokens, the `dbi` and `mcp` clients, server start and configuration loading: thin plumbing around the calls.
- VerifyProjectIsolation and Ping: live probes, not part of the lifecycle.
- SQL text, drivers and connection pooling: a statement is its effect and an outcome the environment picks; only the quoted parts of the text are modelled.
- MySQL's own length limits on database and user names.
- Row ids, timestamps, engine, secret path, remote address: never read by the calls.
- Error texts: a row's error and a record's message name the statement that failed, not its text.
- Accounts or databases changed by anyone but the service.
- The JSON-lines mirror of the audit log, and records of calls refused before any lock in `System`; `Provision.Service.Refuse` models the latter for single calls.
- The order of audit records of different names: serialisability is about stores and results.
- File modes: setting the mode is one of the writer's recorded system calls and may fail, but a mode is not part of the disk.
- Rows edited by hand: the classes work with whatever identifiers a row holds, the results about runs ask that it holds its own project's, as every call leaves it (`Provision.CallsKeepRowsKeyed`).
- Non-ASCII names: names are sequences of characters, so the byte length of an invalid one is not modelled.
- Random numbers and entropy: draws are parameters, and results hold for all bytes.
- Waiting in the classes: a mutex another call holds is a matter of `System`; the classes run one call at a time.
- Database.LockRegistry.Lock: requires that the mutex of this very name is free, because the classes run one call at a time.
- Volume.Writer.Write: temporary files left behind by a failed removal are allowed to stay, as in the code.
- Loss of power for rows, audit log and MySQL: their statements are taken to be durable once they return.
- Volume.Directory.Rename: a failed rename is taken to have no effect, as file systems promise.

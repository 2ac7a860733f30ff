/**
 The secret writer on a file system that may lose power: what a directory and
 its files hold now, what a crash may leave of them, and the two operations of
 the writer as sequences of system calls, each of which may fail.
 */
module Volume {
  import opened Common
  import opened EnvFile
  import opened Stores
  import opened Journals

  // ---------------------------------------------------------------- disks

  /**
   `entries` and `data` are what running processes see. A crash may bring back,
   for each path on its own, any binding in `stale`; it keeps the content of a
   synced file and may leave anything in another.
   */
  datatype Disk = Disk(
    entries: map<string, nat>,
    stale: map<string, set<Option<nat>>>,
    data: map<nat, string>,
    synced: set<nat>,
    next: nat)

  function Stale(d: Disk, p: string): set<Option<nat>> {
    if p in d.stale then d.stale[p] else {}
  }

  /** The files a crash may leave under the path. */
  function Bindings(d: Disk, p: string): set<Option<nat>> {
    {Lookup(d.entries, p)} + Stale(d, p)
  }

  ghost predicate WellFormed(d: Disk) {
    && (forall i :: i in d.data ==> i < d.next)
    && (forall p, i :: Some(i) in Bindings(d, p) ==> i in d.data)
  }

  function Read(d: Disk, p: string): Option<string> {
    if p in d.entries && d.entries[p] in d.data then Some(d.data[d.entries[p]]) else None
  }

  /** A disk as a crash may leave it; what it shows then is durable. */
  ghost predicate CrashesTo(d: Disk, e: Disk) {
    && WellFormed(e) && e.stale == map[] && e.synced == e.data.Keys
    && (forall p :: Lookup(e.entries, p) in Bindings(d, p))
    && (forall i :: i in d.synced && i in d.data && i in e.data ==> e.data[i] == d.data[i])
  }

  /** A crash may leave this content under the path. */
  ghost predicate MaySurvive(d: Disk, p: string, c: Option<string>) {
    exists b :: b in Bindings(d, p) && Leaves(d, b, c)
  }

  predicate Leaves(d: Disk, b: Option<nat>, c: Option<string>) {
    match b
    case None => c.None?
    case Some(i) => c.Some? && (i in d.synced && i in d.data ==> c.value == d.data[i])
  }

  lemma CrashReads(d: Disk, e: Disk, p: string)
    requires CrashesTo(d, e)
    ensures MaySurvive(d, p, Read(e, p))
  {
    var b := Lookup(e.entries, p);
    assert b in Bindings(e, p);
    assert Leaves(d, b, Read(e, p));
  }

  // ---------------------------------------------------------------- system calls

  function Remember(d: Disk, p: string): map<string, set<Option<nat>>> {
    d.stale[p := Bindings(d, p)]
  }

  /** A new empty file under a free path. */
  function Created(d: Disk, p: string): Disk {
    d.(entries := d.entries[p := d.next], stale := Remember(d, p), data := d.data[d.next := ""],
       synced := d.synced - {d.next}, next := d.next + 1)
  }

  function Written(d: Disk, i: nat, text: string): Disk {
    d.(data := d.data[i := text], synced := d.synced - {i}, next := if i < d.next then d.next else i + 1)
  }

  function Synced(d: Disk, i: nat): Disk {
    d.(synced := d.synced + {i})
  }

  function Unlinked(d: Disk, p: string): Disk {
    d.(entries := d.entries - {p}, stale := Remember(d, p))
  }

  function Renamed(d: Disk, from: string, to: string): Disk
    requires from in d.entries
  {
    Unlinked(d, from).(
      entries := (d.entries - {from})[to := d.entries[from]], stale := Remember(d, from)[to := Bindings(d, to)])
  }

  function DirSynced(d: Disk): Disk {
    d.(stale := map[])
  }

  // ---------------------------------------------------------------- what a step keeps

  /** The path shows the same file with the same content, and a crash can leave nothing else than before. */
  ghost predicate Kept(d: Disk, e: Disk, p: string) {
    && Lookup(e.entries, p) == Lookup(d.entries, p)
    && Bindings(e, p) <= Bindings(d, p)
    && (forall i :: Some(i) in Bindings(e, p) ==>
          (i in d.data <==> i in e.data) && (i in d.synced <==> i in e.synced)
          && (i in d.data ==> e.data[i] == d.data[i]))
  }

  lemma KeptIsTransitive(d: Disk, e: Disk, f: Disk, p: string)
    requires Kept(d, e, p) && Kept(e, f, p)
    ensures Kept(d, f, p)
  {
  }

  /** The path holds all of its old content or all of the new, now and after a crash. */
  ghost predicate OldOrNew(d: Disk, e: Disk, p: string, text: string) {
    && (Read(e, p) == Read(d, p) || Read(e, p) == Some(text))
    && forall c :: MaySurvive(e, p, c) ==> MaySurvive(d, p, c) || c == Some(text)
  }

  lemma KeptIsOld(d: Disk, e: Disk, p: string, text: string)
    requires Kept(d, e, p)
    ensures OldOrNew(d, e, p, text) && Read(e, p) == Read(d, p)
  {
    assert Lookup(e.entries, p) in Bindings(e, p);
    forall c | MaySurvive(e, p, c) ensures MaySurvive(d, p, c) {
      var b :| b in Bindings(e, p) && Leaves(e, b, c);
      assert Leaves(d, b, c);
    }
  }

  /** No other path can come to show the file. */
  ghost predicate Private(d: Disk, i: nat, p: string) {
    forall q :: q != p ==> Some(i) !in Bindings(d, q)
  }

  lemma CreatedKeeps(d: Disk, tmp: string, p: string)
    requires WellFormed(d) && tmp !in d.entries && p != tmp
    ensures WellFormed(Created(d, tmp)) && Kept(d, Created(d, tmp), p)
    ensures Private(Created(d, tmp), d.next, tmp)
  {
    var e := Created(d, tmp);
    forall q, i | Some(i) in Bindings(e, q) ensures i in e.data && (q != tmp ==> i != d.next) {
      if q != tmp {
        assert Some(i) in Bindings(d, q);
      } else if i != d.next {
        assert Some(i) in Bindings(d, tmp);
      }
    }
  }

  lemma WrittenKeeps(d: Disk, tmp: string, i: nat, text: string, p: string)
    requires WellFormed(d) && Private(d, i, tmp) && p != tmp
    ensures WellFormed(Written(d, i, text)) && Kept(d, Written(d, i, text), p) && Private(Written(d, i, text), i, tmp)
  {
    var e := Written(d, i, text);
    forall q ensures Bindings(e, q) == Bindings(d, q) {
    }
  }

  lemma SyncedKeeps(d: Disk, tmp: string, i: nat, p: string)
    requires WellFormed(d) && Private(d, i, tmp) && p != tmp
    ensures WellFormed(Synced(d, i)) && Kept(d, Synced(d, i), p) && Private(Synced(d, i), i, tmp)
  {
    var e := Synced(d, i);
    forall q ensures Bindings(e, q) == Bindings(d, q) {
    }
  }

  lemma UnlinkedKeeps(d: Disk, q: string, p: string)
    requires WellFormed(d) && p != q
    ensures WellFormed(Unlinked(d, q)) && Kept(d, Unlinked(d, q), p)
  {
    var e := Unlinked(d, q);
    forall r, i | Some(i) in Bindings(e, r) ensures i in e.data {
      assert Some(i) in Bindings(d, r);
    }
  }

  lemma RenamedKeeps(d: Disk, from: string, to: string, p: string)
    requires WellFormed(d) && from in d.entries && from != to && p != from && p != to
    ensures Kept(d, Renamed(d, from, to), p)
  {
  }

  lemma RenamedWellFormed(d: Disk, from: string, to: string)
    requires WellFormed(d) && from in d.entries && from != to
    ensures WellFormed(Renamed(d, from, to))
  {
    var e := Renamed(d, from, to);
    assert Some(d.entries[from]) in Bindings(d, from);
    forall r, i | Some(i) in Bindings(e, r) ensures i in e.data {
      assert Some(i) in Bindings(d, r) || i == d.entries[from];
    }
  }

  lemma DirSyncedKeeps(d: Disk, p: string)
    requires WellFormed(d)
    ensures WellFormed(DirSynced(d)) && Kept(d, DirSynced(d), p)
  {
    forall r, i | Some(i) in Bindings(DirSynced(d), r) ensures i in d.data {
      assert Some(i) in Bindings(d, r);
    }
  }

  /** Renaming a synced file into place: old or new, nothing in between. */
  lemma RenameReplaces(d: Disk, tmp: string, p: string, text: string)
    requires WellFormed(d) && tmp in d.entries && tmp != p
    requires d.entries[tmp] in d.data && d.data[d.entries[tmp]] == text && d.entries[tmp] in d.synced
    ensures OldOrNew(d, Renamed(d, tmp, p), p, text) && Read(Renamed(d, tmp, p), p) == Some(text)
    ensures forall c :: MaySurvive(DirSynced(Renamed(d, tmp, p)), p, c) <==> c == Some(text)
  {
    var e := Renamed(d, tmp, p);
    var i := d.entries[tmp];
    assert Bindings(e, p) == {Some(i)} + Bindings(d, p);
    forall c | MaySurvive(e, p, c) ensures MaySurvive(d, p, c) || c == Some(text) {
      var b :| b in Bindings(e, p) && Leaves(e, b, c);
      if b != Some(i) {
        assert b in Bindings(d, p) && Leaves(d, b, c);
      }
    }
    assert Bindings(DirSynced(e), p) == {Some(i)};
    assert Some(i) in Bindings(DirSynced(e), p) && Leaves(DirSynced(e), Some(i), Some(text));
  }

  lemma OldOrNewThenKept(d: Disk, e: Disk, f: Disk, p: string, text: string)
    requires OldOrNew(d, e, p, text) && Kept(e, f, p)
    ensures OldOrNew(d, f, p, text)
  {
    KeptIsOld(e, f, p, text);
  }

  lemma KeptThenOldOrNew(d: Disk, e: Disk, f: Disk, p: string, text: string)
    requires Kept(d, e, p) && OldOrNew(e, f, p, text)
    ensures OldOrNew(d, f, p, text)
  {
    KeptIsOld(d, e, p, text);
  }

  // ---------------------------------------------------------------- until the next directory sync

  /** A crash can leave the path only as it is now. */
  ghost predicate Settled(d: Disk, p: string) {
    Stale(d, p) <= {Lookup(d.entries, p)} && (p in d.entries ==> d.entries[p] in d.data && d.entries[p] in d.synced)
  }

  /** What any process may do to the directory and its files. */
  datatype DiskStep =
    | CreateFile(path: string)
    | WriteFile(inode: nat, text: string)
    | SyncFile(inode: nat)
    | UnlinkFile(path: string)
    | RenameFile(from: string, path: string)
    | SyncDirectory
  {
    /** The step may bind the path anew, or remove its binding. */
    predicate Touches(p: string) {
      match this
      case CreateFile(q) => q == p
      case UnlinkFile(q) => q == p
      case RenameFile(r, q) => r == p || q == p
      case _ => false
    }
  }

  function ApplyStep(d: Disk, st: DiskStep): Disk {
    match st
    case CreateFile(p) => if p in d.entries then d else Created(d, p)
    case WriteFile(i, text) => Written(d, i, text)
    case SyncFile(i) => Synced(d, i)
    case UnlinkFile(p) => Unlinked(d, p)
    case RenameFile(from, to) => if from in d.entries && from != to then Renamed(d, from, to) else d
    case SyncDirectory => DirSynced(d)
  }

  function RunSteps(d: Disk, steps: seq<DiskStep>): Disk {
    if steps == [] then d else ApplyStep(RunSteps(d, steps[..|steps| - 1]), steps[|steps| - 1])
  }

  /** The file with this number keeps its content: nobody writes to it. */
  predicate NeverWrites(steps: seq<DiskStep>, i: nat) {
    forall j :: 0 <= j < |steps| && steps[j].WriteFile? ==> steps[j].inode != i
  }

  predicate NeverTouches(steps: seq<DiskStep>, p: string) {
    forall j :: 0 <= j < |steps| ==> !steps[j].Touches(p)
  }

  lemma StepKeepsWellFormed(d: Disk, st: DiskStep)
    requires WellFormed(d)
    ensures WellFormed(ApplyStep(d, st))
  {
    match st
    case CreateFile(p) =>
      if p !in d.entries {
        CreatedKeeps(d, p, p + "x");
      }
    case WriteFile(i, text) =>
      forall q ensures Bindings(Written(d, i, text), q) == Bindings(d, q) {
      }
    case SyncFile(i) =>
      forall q ensures Bindings(Synced(d, i), q) == Bindings(d, q) {
      }
    case UnlinkFile(p) => UnlinkedKeeps(d, p, p + "x");
    case RenameFile(from, to) =>
      if from in d.entries && from != to {
        RenamedWellFormed(d, from, to);
      }
    case SyncDirectory => DirSyncedKeeps(d, "");
  }

  /** A step that does not touch the path leaves its bindings alone, but for a sync, which leaves only the current one. */
  lemma UntouchedBindings(d: Disk, st: DiskStep, p: string)
    requires !st.Touches(p)
    ensures Lookup(ApplyStep(d, st).entries, p) == Lookup(d.entries, p)
    ensures Bindings(ApplyStep(d, st), p) == if st.SyncDirectory? then {Lookup(d.entries, p)} else Bindings(d, p)
  {
  }

  lemma UnwrittenContent(d: Disk, st: DiskStep, i: nat)
    requires i in d.data && i in d.synced && i < d.next && (st.WriteFile? ==> st.inode != i)
    ensures var e := ApplyStep(d, st); i in e.data && e.data[i] == d.data[i] && i in e.synced && i < e.next
  {
  }

  /**
   The bindings of a path that is no longer touched: all that a crash could
   bring back stays possible up to the next directory sync and is gone from then on.
   */
  lemma {:induction false} BindingsUntilSync(d: Disk, steps: seq<DiskStep>, p: string)
    requires WellFormed(d) && NeverTouches(steps, p)
    ensures var e := RunSteps(d, steps);
      && WellFormed(e) && Lookup(e.entries, p) == Lookup(d.entries, p)
      && Bindings(e, p) == if SyncDirectory in steps then {Lookup(d.entries, p)} else Bindings(d, p)
  {
    if steps != [] {
      var before, st := steps[..|steps| - 1], steps[|steps| - 1];
      BindingsUntilSync(d, before, p);
      StepKeepsWellFormed(RunSteps(d, before), st);
      UntouchedBindings(RunSteps(d, before), st, p);
      assert steps == before + [st];
    }
  }

  lemma {:induction false} ContentStays(d: Disk, steps: seq<DiskStep>, i: nat)
    requires i in d.data && i in d.synced && i < d.next && NeverWrites(steps, i)
    ensures var e := RunSteps(d, steps); i in e.data && e.data[i] == d.data[i] && i in e.synced
    ensures i < RunSteps(d, steps).next
  {
    if steps != [] {
      var before, st := steps[..|steps| - 1], steps[|steps| - 1];
      ContentStays(d, before, i);
      assert st == steps[|steps| - 1];
      UnwrittenContent(RunSteps(d, before), st, i);
    }
  }

  /** A crash that brings one possible binding of one path back and keeps the rest. */
  lemma SomeCrash(d: Disk, p: string, i: nat) returns (e: Disk)
    requires WellFormed(d) && Some(i) in Bindings(d, p) && i in d.synced
    ensures CrashesTo(d, e) && Read(e, p) == Some(d.data[i])
  {
    e := Disk(d.entries[p := i], map[], d.data, d.data.Keys, d.next);
    forall q, b | Some(b) in Bindings(e, q) ensures b in e.data {
      assert q != p ==> Some(b) in Bindings(d, q);
    }
  }

  /** The old content of a path that now shows something else. */
  ghost predicate ReadableAfterCrash(d: Disk, p: string, text: string) {
    exists e :: CrashesTo(d, e) && Read(e, p) == Some(text)
  }

  /**
   Power loss and a file that was deleted or replaced: whatever happens to other
   paths afterwards, the old content can be readable again exactly as long as the
   directory has not been synced.
   */
  lemma OldFileSurvivesExactlyUntilSync(d: Disk, first: DiskStep, more: seq<DiskStep>, p: string)
    requires WellFormed(d) && Settled(d, p) && p in d.entries && NeverTouches(more, p) && NeverWrites(more, d.entries[p])
    requires first == UnlinkFile(p) ||
      (first.RenameFile? && first.path == p && first.from != p && first.from in d.entries
       && NeverWrites(more, d.entries[first.from]) && d.entries[first.from] in d.synced
       && Read(d, first.from) != Read(d, p))
    ensures ReadableAfterCrash(RunSteps(ApplyStep(d, first), more), p, Read(d, p).value) <==> SyncDirectory !in more
  {
    var f, i := ApplyStep(d, first), d.entries[p];
    var e := RunSteps(f, more);
    StepKeepsWellFormed(d, first);
    BindingsUntilSync(f, more, p);
    assert Some(i) in Bindings(d, p) && Some(i) in Bindings(f, p);
    ContentStays(f, more, i);
    if SyncDirectory !in more {
      var crashed := SomeCrash(e, p, i);
    } else if ReadableAfterCrash(e, p, Read(d, p).value) {
      var crashed :| CrashesTo(e, crashed) && Read(crashed, p) == Some(Read(d, p).value);
      assert Lookup(crashed.entries, p) in Bindings(e, p);
      if first.RenameFile? {
        assert Some(d.entries[first.from]) in Bindings(d, first.from);
        ContentStays(f, more, d.entries[first.from]);
      }
    }
  }

  // ---------------------------------------------------------------- the directory

  datatype Removal = Removed | Absent | RemoveFailed

  datatype Kind = CreateTempFile | WriteText | SetMode | SyncText | CloseFile | RenameFileInto | SyncTheDirectory | RemoveFile

  /** One system call, and whether it succeeded. */
  datatype SysCall = SysCall(kind: Kind, ok: bool)

  /**
   The secrets directory as the operating system serves it; `seen` records every
   state it went through and `calls` every system call.
   */
  class Directory {
    var disk: Disk
    ghost var seen: seq<Disk>
    ghost var calls: seq<SysCall>

    ghost predicate Valid()
      reads this
    {
      WellFormed(disk)
    }

    constructor (disk: Disk)
      requires WellFormed(disk)
      ensures Valid() && this.disk == disk && seen == [disk] && calls == []
    {
      this.disk := disk;
      seen, calls := [disk], [];
    }

    /** Creates a new empty file with some free name of the given form, or fails. */
    method CreateTemp(prefix: string, suffix: string) returns (r: Option<string>, ghost middle: string)
      requires Valid()
      modifies this
      ensures r.None? ==> disk == old(disk)
      ensures r.Some? ==> r.value == prefix + middle + suffix
      ensures r.Some? ==> r.value !in old(disk).entries && disk == Created(old(disk), r.value)
      ensures seen == old(seen) + [disk]
      ensures calls == old(calls) + [SysCall(CreateTempFile, r.Some?)]
    {
      var x: string := *;
      var fails: bool := *;
      middle := x;
      if fails || prefix + x + suffix in disk.entries {
        r := None;
      } else {
        r := Some(prefix + x + suffix);
        disk := Created(disk, r.value);
      }
      seen, calls := seen + [disk], calls + [SysCall(CreateTempFile, r.Some?)];
    }

    /** Writes the text into an empty file; a failed write leaves some part of it. */
    method Write(i: nat, text: string) returns (ok: bool, ghost got: string)
      modifies this
      ensures got <= text && (ok ==> got == text) && disk == Written(old(disk), i, got)
      ensures seen == old(seen) + [disk]
      ensures calls == old(calls) + [SysCall(WriteText, ok)]
    {
      var n: int := *;
      ok := !(0 <= n < |text|);
      var part := if ok then text else text[..n];
      disk := Written(disk, i, part);
      got := part;
      seen, calls := seen + [disk], calls + [SysCall(WriteText, ok)];
    }

    /** Only the file's mode could change, which is not part of the state. */
    method Chmod(i: nat) returns (ok: bool)
      modifies this
      ensures disk == old(disk) && seen == old(seen) + [disk]
      ensures calls == old(calls) + [SysCall(SetMode, ok)]
    {
      ok := *;
      seen, calls := seen + [disk], calls + [SysCall(SetMode, ok)];
    }

    method Sync(i: nat) returns (ok: bool)
      modifies this
      ensures disk == Synced(old(disk), i) || (!ok && disk == old(disk))
      ensures seen == old(seen) + [disk]
      ensures calls == old(calls) + [SysCall(SyncText, ok)]
    {
      ok := *;
      var applied: bool := *;
      if ok || applied {
        disk := Synced(disk, i);
      }
      seen, calls := seen + [disk], calls + [SysCall(SyncText, ok)];
    }

    method Close(i: nat) returns (ok: bool)
      modifies this
      ensures disk == old(disk) && seen == old(seen) + [disk]
      ensures calls == old(calls) + [SysCall(CloseFile, ok)]
    {
      ok := *;
      seen, calls := seen + [disk], calls + [SysCall(CloseFile, ok)];
    }

    /** Atomic: a failed rename has no effect. */
    method Rename(from: string, to: string) returns (ok: bool)
      requires from in disk.entries
      modifies this
      ensures disk == if ok then Renamed(old(disk), from, to) else old(disk)
      ensures seen == old(seen) + [disk]
      ensures calls == old(calls) + [SysCall(RenameFileInto, ok)]
    {
      ok := *;
      if ok {
        disk := Renamed(disk, from, to);
      }
      seen, calls := seen + [disk], calls + [SysCall(RenameFileInto, ok)];
    }

    /** Opens and syncs the directory itself. */
    method SyncDir() returns (ok: bool)
      modifies this
      ensures disk == if ok then DirSynced(old(disk)) else old(disk)
      ensures seen == old(seen) + [disk]
      ensures calls == old(calls) + [SysCall(SyncTheDirectory, ok)]
    {
      ok := *;
      if ok {
        disk := DirSynced(disk);
      }
      seen, calls := seen + [disk], calls + [SysCall(SyncTheDirectory, ok)];
    }

    /** A failed removal may still have taken effect. */
    method Remove(p: string) returns (r: Removal)
      modifies this
      ensures r.Absent? <==> p !in old(disk).entries
      ensures r.Removed? ==> disk == Unlinked(old(disk), p)
      ensures r.Absent? ==> disk == old(disk)
      ensures disk == old(disk) || disk == Unlinked(old(disk), p)
      ensures seen == old(seen) + [disk]
      ensures calls == old(calls) + [SysCall(RemoveFile, !r.RemoveFailed?)]
    {
      var ok: bool := *;
      var applied: bool := *;
      if p !in disk.entries {
        r := Absent;
      } else {
        r := if ok then Removed else RemoveFailed;
        if ok || applied {
          disk := Unlinked(disk, p);
        }
      }
      seen, calls := seen + [disk], calls + [SysCall(RemoveFile, !r.RemoveFailed?)];
    }
  }

  // ---------------------------------------------------------------- the writer

  /** The file of a project, inside the directory. */
  function Path(name: string): string {
    name + ".env"
  }

  function TempPrefix(name: string): string {
    "." + name + "."
  }

  /** The name has the form of a temporary file of the project. */
  predicate IsTemp(name: string, p: string) {
    |p| >= |name| + 6 && p[..|name| + 2] == TempPrefix(name) && p[|p| - 4..] == ".tmp"
  }

  /** No temporary file ever has the name of any project's secret file. */
  lemma TempIsNoSecret(name: string, p: string, other: string)
    requires IsTemp(name, p)
    ensures p != Path(other)
  {
    assert p[|p| - 1] == p[|p| - 4..][3] == 'p';
  }

  /** A name has that form exactly if it is the project's prefix, anything, and `.tmp`. */
  lemma TempFormExactly(name: string, p: string)
    ensures IsTemp(name, p) <==> exists x :: p == "." + name + "." + x + ".tmp"
  {
    if IsTemp(name, p) {
      var x := p[|name| + 2..|p| - 4];
      assert p == TempPrefix(name) + x + ".tmp";
    }
    forall x | p == "." + name + "." + x + ".tmp" ensures IsTemp(name, p) {
      TempForm(name, x);
    }
  }

  lemma PathsDiffer(x: string, y: string)
    requires Path(x) == Path(y)
    ensures x == y
  {
    assert x == Path(x)[..|Path(x)| - 4] && y == Path(y)[..|Path(y)| - 4];
  }

  lemma TempForm(name: string, x: string)
    ensures IsTemp(name, TempPrefix(name) + x + ".tmp")
  {
    var p := TempPrefix(name) + x + ".tmp";
    assert p[|p| - 4..] == ".tmp" && p[..|name| + 2] == TempPrefix(name);
  }

  /** The project's file is old or new, and no other project's file is touched. */
  ghost predicate Replacing(d: Disk, e: Disk, name: string, text: string) {
    && OldOrNew(d, e, Path(name), text)
    && forall q :: q != Path(name) && !IsTemp(name, q) ==> Kept(d, e, q)
  }

  /** After a crash every path is settled, so the writer's promise holds again from there. */
  lemma CrashSettles(d: Disk, e: Disk, p: string)
    requires CrashesTo(d, e)
    ensures Settled(e, p) && forall c :: MaySurvive(e, p, c) ==> c == Read(e, p)
  {
    assert Lookup(e.entries, p) in Bindings(e, p);
    SettledSurvivor(e, p);
  }

  lemma SettledSurvivor(d: Disk, p: string)
    requires Settled(d, p)
    ensures forall c :: MaySurvive(d, p, c) ==> c == Read(d, p)
  {
    forall c | MaySurvive(d, p, c) ensures c == Read(d, p) {
      var b :| b in Bindings(d, p) && Leaves(d, b, c);
      assert b == Lookup(d.entries, p);
    }
  }

  /**
   Power may fail at any step `e` of a write that began in `d`: what a reader
   then finds is the complete file of before or the complete new one.
   */
  lemma CrashLeavesOldOrNew(d: Disk, e: Disk, f: Disk, name: string, text: string)
    requires Replacing(d, e, name, text) && Settled(d, Path(name)) && CrashesTo(e, f)
    ensures Read(f, Path(name)) == Read(d, Path(name)) || Read(f, Path(name)) == Some(text)
  {
    CrashReads(e, f, Path(name));
    SettledSurvivor(d, Path(name));
  }

  /** Nothing but the temporary file differs. */
  ghost predicate AllKept(d: Disk, e: Disk, tmp: string) {
    forall q :: q != tmp ==> Kept(d, e, q)
  }

  lemma AllKeptIsTransitive(d: Disk, e: Disk, f: Disk, tmp: string)
    requires AllKept(d, e, tmp) && AllKept(e, f, tmp)
    ensures AllKept(d, f, tmp)
  {
    forall q | q != tmp ensures Kept(d, f, q) {
      KeptIsTransitive(d, e, f, q);
    }
  }

  lemma AllKeptReplaces(d: Disk, e: Disk, tmp: string, name: string, text: string)
    requires AllKept(d, e, tmp) && IsTemp(name, tmp)
    ensures Replacing(d, e, name, text)
  {
    TempIsNoSecret(name, tmp, name);
    KeptIsOld(d, e, Path(name), text);
  }

  lemma RenameIsReplacing(d: Disk, e: Disk, tmp: string, name: string, text: string)
    requires WellFormed(e) && AllKept(d, e, tmp) && IsTemp(name, tmp) && tmp in e.entries
    requires e.entries[tmp] in e.data && e.data[e.entries[tmp]] == text && e.entries[tmp] in e.synced
    ensures WellFormed(Renamed(e, tmp, Path(name))) && Replacing(d, Renamed(e, tmp, Path(name)), name, text)
  {
    TempIsNoSecret(name, tmp, name);
    RenamedWellFormed(e, tmp, Path(name));
    RenameReplaces(e, tmp, Path(name), text);
    KeptThenOldOrNew(d, e, Renamed(e, tmp, Path(name)), Path(name), text);
    forall q | q != Path(name) && !IsTemp(name, q) ensures Kept(d, Renamed(e, tmp, Path(name)), q) {
      RenamedKeeps(e, tmp, Path(name), q);
      KeptIsTransitive(d, e, Renamed(e, tmp, Path(name)), q);
    }
  }

  lemma WrittenAllKept(d: Disk, tmp: string, i: nat, text: string)
    requires WellFormed(d) && Private(d, i, tmp)
    ensures WellFormed(Written(d, i, text)) && AllKept(d, Written(d, i, text), tmp) && Private(Written(d, i, text), i, tmp)
  {
    WrittenKeeps(d, tmp, i, text, tmp + "x");
    forall q | q != tmp ensures Kept(d, Written(d, i, text), q) {
      WrittenKeeps(d, tmp, i, text, q);
    }
  }

  lemma SyncedAllKept(d: Disk, tmp: string, i: nat)
    requires WellFormed(d) && Private(d, i, tmp)
    ensures WellFormed(Synced(d, i)) && AllKept(d, Synced(d, i), tmp) && AllKept(d, d, tmp)
  {
    SyncedKeeps(d, tmp, i, tmp + "x");
    forall q | q != tmp ensures Kept(d, Synced(d, i), q) {
      SyncedKeeps(d, tmp, i, q);
    }
  }

  lemma CreatedAllKept(d: Disk, tmp: string)
    requires WellFormed(d) && tmp !in d.entries
    ensures WellFormed(Created(d, tmp)) && AllKept(d, Created(d, tmp), tmp) && Private(Created(d, tmp), d.next, tmp)
  {
    CreatedKeeps(d, tmp, tmp + "x");
    forall q | q != tmp ensures Kept(d, Created(d, tmp), q) {
      CreatedKeeps(d, tmp, q);
    }
  }

  lemma UnlinkedAllKept(d: Disk, p: string)
    requires WellFormed(d)
    ensures WellFormed(Unlinked(d, p)) && AllKept(d, Unlinked(d, p), p) && AllKept(d, d, p)
  {
    UnlinkedKeeps(d, p, p + "x");
    forall q | q != p ensures Kept(d, Unlinked(d, p), q) {
      UnlinkedKeeps(d, p, q);
    }
  }

  lemma DirSyncReplaces(d: Disk, e: Disk, name: string, text: string)
    requires WellFormed(e) && Replacing(d, e, name, text)
    ensures WellFormed(DirSynced(e)) && Replacing(d, DirSynced(e), name, text)
  {
    DirSyncedKeeps(e, Path(name));
    OldOrNewThenKept(d, e, DirSynced(e), Path(name), text);
    forall q | q != Path(name) && !IsTemp(name, q) ensures Kept(d, DirSynced(e), q) {
      DirSyncedKeeps(e, q);
      KeptIsTransitive(d, e, DirSynced(e), q);
    }
  }

  lemma NothingChanged(d: Disk, name: string, text: string)
    ensures Replacing(d, d, name, text) && Kept(d, d, Path(name))
  {
    KeptIsOld(d, d, Path(name), text);
  }

  lemma UnlinkedLeavesOldOrNothing(d: Disk, p: string)
    ensures forall c :: MaySurvive(Unlinked(d, p), p, c) ==> MaySurvive(d, p, c) || c.None?
  {
    var e := Unlinked(d, p);
    forall c | MaySurvive(e, p, c) ensures MaySurvive(d, p, c) || c.None? {
      var b :| b in Bindings(e, p) && Leaves(e, b, c);
      assert b.None? || (b in Bindings(d, p) && Leaves(d, b, c));
    }
  }

  /** A stretch of states that keep everything but the temporary file. */
  lemma StretchReplaces(d: Disk, e: Disk, seen: seq<Disk>, start: nat, tmp: string, name: string, text: string)
    requires AllKept(d, e, tmp) && IsTemp(name, tmp)
    requires forall j :: start <= j < |seen| ==> AllKept(e, seen[j], tmp)
    ensures forall j :: start <= j < |seen| ==> Replacing(d, seen[j], name, text)
  {
    forall j | start <= j < |seen| ensures Replacing(d, seen[j], name, text) {
      AllKeptIsTransitive(d, e, seen[j], tmp);
      AllKeptReplaces(d, seen[j], tmp, name, text);
    }
  }

  /** The directory holds exactly the rendered secrets of these projects, and maybe temporary files. */
  ghost predicate Represents(d: Disk, files: map<string, Secret>) {
    forall n :: Read(d, Path(n)) == if n in files then Some(RenderEnv(files[n])) else None
  }

  lemma ReplacedRepresents(d: Disk, e: Disk, files: map<string, Secret>, s: Secret)
    requires Represents(d, files) && Replacing(d, e, s.name, RenderEnv(s)) && Read(e, Path(s.name)) == Some(RenderEnv(s))
    ensures Represents(e, files[s.name := s])
  {
    forall n | n != s.name ensures Read(e, Path(n)) == Read(d, Path(n)) {
      SecretsKept(d, e, s.name, RenderEnv(s), n);
    }
  }

  lemma UnreplacedRepresents(d: Disk, e: Disk, files: map<string, Secret>, s: Secret)
    requires Represents(d, files) && Replacing(d, e, s.name, RenderEnv(s)) && Kept(d, e, Path(s.name))
    ensures Represents(e, files)
  {
    KeptIsOld(d, e, Path(s.name), RenderEnv(s));
    forall n | n != s.name ensures Read(e, Path(n)) == Read(d, Path(n)) {
      SecretsKept(d, e, s.name, RenderEnv(s), n);
    }
  }

  lemma SecretsKept(d: Disk, e: Disk, name: string, text: string, n: string)
    requires Replacing(d, e, name, text) && n != name
    ensures Read(e, Path(n)) == Read(d, Path(n))
  {
    if Path(n) == Path(name) {
      PathsDiffer(n, name);
    } else if IsTemp(name, Path(n)) {
      TempIsNoSecret(name, Path(n), n);
    } else {
      KeptIsOld(d, e, Path(n), text);
    }
  }

  lemma RemovedRepresents(d: Disk, e: Disk, files: map<string, Secret>, name: string)
    requires Represents(d, files) && AllKept(d, e, Path(name)) && Read(e, Path(name)).None?
    ensures Represents(e, files - {name})
  {
    forall n | n != name ensures Read(e, Path(n)) == Read(d, Path(n)) {
      if Path(n) == Path(name) {
        PathsDiffer(n, name);
      } else {
        KeptIsOld(d, e, Path(n), "");
      }
    }
  }

  /** How far a write got: the first of its six steps that failed, or 6, and how the calls after the steps came out. */
  datatype Attempt = Attempt(stop: nat, closed: bool, synced: bool, removed: bool)

  /** Write, set the mode, sync, close; after a failure only close. */
  function FillCalls(a: Attempt): seq<SysCall> {
    if a.stop == 1 then [SysCall(WriteText, false), SysCall(CloseFile, a.closed)]
    else if a.stop == 2 then [SysCall(WriteText, true), SysCall(SetMode, false), SysCall(CloseFile, a.closed)]
    else if a.stop == 3 then
      [SysCall(WriteText, true), SysCall(SetMode, true), SysCall(SyncText, false), SysCall(CloseFile, a.closed)]
    else [SysCall(WriteText, true), SysCall(SetMode, true), SysCall(SyncText, true), SysCall(CloseFile, a.stop > 4)]
  }

  /** Rename into place; after a success sync the directory, best effort. */
  function InstallCalls(a: Attempt): seq<SysCall> {
    if a.stop == 5 then [SysCall(RenameFileInto, false)]
    else [SysCall(RenameFileInto, true), SysCall(SyncTheDirectory, a.synced)]
  }

  /** All system calls of a write, in order; the temporary file is removed last, whatever happened to it. */
  function WriteCalls(a: Attempt): seq<SysCall> {
    if a.stop == 0 then [SysCall(CreateTempFile, false)]
    else
      [SysCall(CreateTempFile, true)] + FillCalls(a) + (if a.stop < 5 then [] else InstallCalls(a))
      + [SysCall(RemoveFile, a.removed)]
  }

  lemma JoinCalls(past: seq<SysCall>, filled: Attempt, a: Attempt, removed: bool, now: seq<SysCall>)
    requires 1 <= filled.stop <= 5 && (filled.stop < 5 ==> a == filled) && FillCalls(a) == FillCalls(filled)
    requires filled.stop == 5 ==> 5 <= a.stop <= 6
    requires now == past + [SysCall(CreateTempFile, true)] + FillCalls(filled) +
                    (if filled.stop < 5 then [] else InstallCalls(a)) + [SysCall(RemoveFile, removed)]
    ensures now == past + WriteCalls(a.(removed := removed))
  {
    var b := a.(removed := removed);
    assert FillCalls(b) == FillCalls(a) && InstallCalls(b) == InstallCalls(a);
  }

  /** The writer; `files` are the secrets its directory holds. */
  class Writer {
    const dir: Directory
    const journal: Journal
    ghost var files: map<string, Secret>

    ghost predicate Valid()
      reads this, dir
    {
      dir.Valid() && Represents(dir.disk, files)
    }

    constructor (dir: Directory, ghost files: map<string, Secret>, journal: Journal)
      requires dir.Valid() && Represents(dir.disk, files)
      ensures Valid() && this.dir == dir && this.files == files && this.journal == journal
    {
      this.dir, this.files, this.journal := dir, files, journal;
    }

    /** Brings the whole text into the temporary file and makes it durable. */
    method Fill(tmp: string, text: string) returns (ok: bool, ghost a: Attempt)
      requires dir.Valid() && tmp in dir.disk.entries && Private(dir.disk, dir.disk.entries[tmp], tmp)
      modifies dir
      ensures dir.Valid() && old(dir.seen) <= dir.seen
      ensures forall j :: |old(dir.seen)| <= j < |dir.seen| ==> AllKept(old(dir.disk), dir.seen[j], tmp)
      ensures AllKept(old(dir.disk), dir.disk, tmp)
      ensures dir.disk.entries == old(dir.disk.entries)
      ensures ok ==>
        var i := dir.disk.entries[tmp];
        i in dir.disk.data && dir.disk.data[i] == text && i in dir.disk.synced
      ensures 1 <= a.stop <= 5 && (ok <==> a.stop == 5) && dir.calls == old(dir.calls) + FillCalls(a)
    {
      a := Attempt(1, true, true, true);
      var i := dir.disk.entries[tmp];
      ghost var d := dir.disk;
      ghost var got: string;
      ok, got := dir.Write(i, text);
      assert AllKept(d, dir.disk, tmp) && dir.Valid() && Private(dir.disk, i, tmp) by {
        WrittenAllKept(d, tmp, i, got);
      }
      if ok {
        ok := dir.Chmod(i);
        a := a.(stop := 2);
        if ok {
          ghost var e := dir.disk;
          ok := dir.Sync(i);
          SyncedAllKept(e, tmp, i);
          AllKeptIsTransitive(d, e, dir.disk, tmp);
          a := a.(stop := 3);
        }
      }
      if ok {
        ok := dir.Close(i);
        a := a.(stop := if ok then 5 else 4);
      } else {
        var closed := dir.Close(i);
        a := a.(closed := closed);
      }
    }

    /** Moves the finished temporary file into place; the directory sync is best effort. */
    method Install(tmp: string, ghost d: Disk, name: string, ghost text: string, ghost was: Attempt)
      returns (ok: bool, ghost durable: bool, ghost a: Attempt)
      requires was.stop == 5
      requires dir.Valid() && AllKept(d, dir.disk, tmp) && IsTemp(name, tmp) && tmp in dir.disk.entries
      requires var i := dir.disk.entries[tmp]; i in dir.disk.data && dir.disk.data[i] == text && i in dir.disk.synced
      modifies dir
      ensures dir.Valid() && old(dir.seen) <= dir.seen
      ensures forall j :: |old(dir.seen)| <= j < |dir.seen| ==> Replacing(d, dir.seen[j], name, text)
      ensures !ok ==> dir.disk == old(dir.disk)
      ensures ok ==> Replacing(d, dir.disk, name, text) && Read(dir.disk, Path(name)) == Some(text)
      ensures ok ==> tmp !in dir.disk.entries && dir.disk.entries.Keys == old(dir.disk.entries.Keys) - {tmp} + {Path(name)}
      ensures durable ==> ok && forall c :: MaySurvive(dir.disk, Path(name), c) <==> c == Some(text)
      ensures a == was.(stop := a.stop, synced := durable) && 5 <= a.stop <= 6 && (ok <==> a.stop == 6)
      ensures dir.calls == old(dir.calls) + InstallCalls(a) && FillCalls(a) == FillCalls(was)
    {
      durable := false;
      ghost var e := dir.disk;
      RenameIsReplacing(d, e, tmp, name, text);
      TempIsNoSecret(name, tmp, name);
      RenameReplaces(e, tmp, Path(name), text);
      ok := dir.Rename(tmp, Path(name));
      if ok {
        var synced := dir.SyncDir();
        durable := synced;
        a := was.(stop := 6, synced := synced);
        DirSyncReplaces(d, Renamed(e, tmp, Path(name)), name, text);
      } else {
        a := was.(stop := 5, synced := false);
        AllKeptReplaces(d, e, tmp, name, text);
      }
    }

    /** Creates, fills and installs a temporary file, then removes it if it is still there. */
    method Replace(name: string, text: string) returns (ok: bool, ghost durable: bool, ghost a: Attempt)
      requires dir.Valid()
      modifies dir
      ensures dir.Valid() && old(dir.seen) <= dir.seen
      ensures forall j :: |old(dir.seen)| <= j < |dir.seen| ==> Replacing(old(dir.disk), dir.seen[j], name, text)
      ensures Replacing(old(dir.disk), dir.disk, name, text)
      ensures if ok then Read(dir.disk, Path(name)) == Some(text) else Kept(old(dir.disk), dir.disk, Path(name))
      ensures durable ==> ok && forall c :: MaySurvive(dir.disk, Path(name), c) <==> c == Some(text)
      ensures ok ==> dir.disk.entries.Keys == old(dir.disk.entries.Keys) + {Path(name)}
      ensures a.stop <= 6 && (ok <==> a.stop == 6) && (durable <==> ok && a.synced)
      ensures dir.calls == old(dir.calls) + WriteCalls(a)
    {
      ok, durable, a := false, false, Attempt(0, true, true, true);
      ghost var d, past := dir.disk, dir.calls;
      NothingChanged(d, name, text);
      ghost var middle: string;
      var created;
      created, middle := dir.CreateTemp(TempPrefix(name), ".tmp");
      if created.None? {
        return;
      }
      var tmp := created.value;
      TempForm(name, middle);
      CreatedAllKept(d, tmp);
      AllKeptReplaces(d, dir.disk, tmp, name, text);
      ghost var e, start := dir.disk, |dir.seen|;
      ok, a := Fill(tmp, text);
      ghost var filled := a;
      StretchReplaces(d, e, dir.seen, start, tmp, name, text);
      AllKeptIsTransitive(d, e, dir.disk, tmp);
      if ok {
        ok, durable, a := Install(tmp, d, name, text, a);
      }
      ghost var removed := Discard(tmp, d, name, text, ok);
      JoinCalls(past, filled, a, removed, dir.calls);
      a := a.(removed := removed);
    }

    /**
     Writes the project's env file. At every step, and after a crash at any
     step, the final path holds all of what it held before or all of the new
     text; an error leaves it as it was.
     */
    method Write(s: Secret) returns (r: Option<string>, ghost durable: bool, ghost a: Attempt)
      requires Valid()
      modifies this, dir, journal
      ensures Valid() && old(dir.seen) <= dir.seen
      ensures forall j :: |old(dir.seen)| <= j < |dir.seen| ==> Replacing(old(dir.disk), dir.seen[j], s.name, RenderEnv(s))
      ensures r.None? ==> Kept(old(dir.disk), dir.disk, Path(s.name))
      ensures r.Some? ==> Accepts(s) && r.value == s.name + ".env" && Read(dir.disk, r.value) == Some(RenderEnv(s))
      ensures durable ==> r.Some? && forall c :: MaySurvive(dir.disk, Path(s.name), c) <==> c == Some(RenderEnv(s))
      ensures r.Some? ==> dir.disk.entries.Keys == old(dir.disk.entries.Keys) + {Path(s.name)}
      ensures files == if r.Some? then old(files)[s.name := s] else old(files)
      ensures dir.calls == old(dir.calls) + if Accepts(s) then WriteCalls(a) else []
      ensures r.Some? <==> Accepts(s) && a.stop == 6
      ensures journal.outcomes == old(journal.outcomes) + [if r.Some? then Done else Failed(false)]
    {
      r, durable, a := None, false, Attempt(0, true, true, true);
      ghost var d := dir.disk;
      NothingChanged(d, s.name, RenderEnv(s));
      if !Accepts(s) {
        journal.Note(Failed(false));
        return;
      }
      var ok;
      ok, durable, a := Replace(s.name, RenderEnv(s));
      if ok {
        r := Some(Path(s.name));
        ReplacedRepresents(d, dir.disk, files, s);
        files := files[s.name := s];
      } else {
        UnreplacedRepresents(d, dir.disk, files, s);
      }
      journal.Note(if ok then Done else Failed(false));
    }

    /** The deferred removal of the temporary file; after a rename there is none. */
    method Discard(tmp: string, ghost d: Disk, name: string, ghost text: string, ghost installed: bool)
      returns (ghost ok: bool)
      requires dir.Valid() && IsTemp(name, tmp)
      requires if installed then tmp !in dir.disk.entries && Replacing(d, dir.disk, name, text) else AllKept(d, dir.disk, tmp)
      modifies dir
      ensures dir.Valid() && dir.seen == old(dir.seen) + [dir.disk] && Replacing(d, dir.disk, name, text)
      ensures dir.calls == old(dir.calls) + [SysCall(RemoveFile, ok)]
      ensures installed ==> dir.disk == old(dir.disk)
      ensures !installed ==> Kept(d, dir.disk, Path(name))
    {
      TempIsNoSecret(name, tmp, name);
      UnlinkedAllKept(dir.disk, tmp);
      ghost var e := dir.disk;
      var r := dir.Remove(tmp);
      ok := !r.RemoveFailed?;
      if !installed {
        AllKeptIsTransitive(d, e, dir.disk, tmp);
        AllKeptReplaces(d, dir.disk, tmp, name, text);
      }
    }

    /** Removes the project's env file; a missing one is no error. */
    method Delete(name: string) returns (ok: bool, ghost o: Outcome)
      requires Valid()
      modifies this, dir, journal
      ensures Valid() && old(dir.seen) <= dir.seen
      ensures journal.outcomes == old(journal.outcomes) + [o]
      ensures dir.calls == old(dir.calls) + if ValidateIdentifier(name) then [SysCall(RemoveFile, ok)] else []
      ensures ok <==> o.Done?
      ensures ok ==> ValidateIdentifier(name)
      ensures ValidateIdentifier(name) && name + ".env" !in old(dir.disk.entries) ==> ok
      ensures files == if o.Applies() then old(files) - {name} else old(files)
      ensures forall c :: MaySurvive(dir.disk, Path(name), c) ==> MaySurvive(old(dir.disk), Path(name), c) || c.None?
      ensures AllKept(old(dir.disk), dir.disk, Path(name))
    {
      ghost var d := dir.disk;
      UnlinkedAllKept(d, Path(name));
      UnlinkedLeavesOldOrNothing(d, Path(name));
      ok, o := false, Failed(false);
      if !ValidateIdentifier(name) {
        journal.Note(o);
        return;
      }
      var r := dir.Remove(Path(name));
      ok := !r.RemoveFailed?;
      o := if ok then Done else Failed(dir.disk != d);
      if o.Applies() {
        RemovedRepresents(d, dir.disk, files, name);
        files := files - {name};
      }
      journal.Note(o);
    }
  }
}

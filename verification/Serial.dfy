/**
 Serialisability: whatever the interleaving, failures and crashes, the stores
 and the results are those of running the calls one after another in the order
 in which they took their service locks.
 */
module Serial {
  import opened Common
  import opened Stores
  import opened Calls
  import opened Lifecycle
  import opened System
  import opened Locks

  /** No two of the names share an identifier. */
  predicate Separate(names: set<string>) {
    forall x, y :: x in names && y in names && x != y ==> Apart(KeysOf(x), KeysOf(y))
  }

  predicate CallsIn(events: seq<Event>, names: set<string>) {
    forall i :: 0 <= i < |events| && events[i].Spawn? ==> events[i].call.name in names
  }

  predicate RowsKeyed(s: Stores, names: set<string>) {
    forall n :: n in names ==> RowKeyed(Lookup(s.rows, n), KeysOf(n))
  }

  /** The calls of the history run one after another, each to the point it reached. */
  function SerialRun(s: Stores, hist: seq<Entry>): Stores {
    if hist == [] then s
    else
      var e := hist[|hist| - 1];
      RunCall(SerialRun(s, hist[..|hist| - 1]), e.call, e.outcomes).stores
  }

  /** The `i`th call of the history as the serial run leaves it. */
  function SerialCall(s: Stores, hist: seq<Entry>, i: nat): Progress
    requires i < |hist|
  {
    RunCall(SerialRun(s, hist[..i]), hist[i].call, hist[i].outcomes)
  }

  // ---------------------------------------------------------------- one call keeps its keys

  lemma ResumeKeyed(t: Thread, row: Option<Row>, k: Keys, r: Reply)
    requires Keyed(t, k) && Active(t) && RowKeyed(row, k)
    requires r.Found? ==> row == Some(r.row)
    ensures Keyed(Resume(t, r), k)
  {
  }

  lemma RowStepKeyed(c: Option<Row>, t: Thread, k: Keys, o: Outcome)
    requires Keyed(t, k) && Active(t) && OnRow(ActionOf(t)) && RowKeyed(c, k)
    ensures RowKeyed(RowStep(c, ActionOf(t), o).cell, k)
  {
  }

  lemma StepKeyed(p: Progress, k: Keys, o: Outcome)
    requires Active(p.thread) && Keyed(p.thread, k) && RowKeyed(Lookup(p.stores.rows, k.name), k)
    ensures Keyed(Step(p, o).thread, k) && RowKeyed(Lookup(Step(p, o).stores.rows, k.name), k)
  {
    var a := ActionOf(p.thread);
    KeyedOwns(p.thread, k);
    var row := Lookup(p.stores.rows, k.name);
    ResumeKeyed(p.thread, row, k, Perform(p.stores, a, o).reply);
    if OnRow(a) {
      RowStepKeyed(row, p.thread, k, o);
    }
  }

  lemma {:induction false} RunKeyed(s: Stores, call: Call, os: seq<Outcome>)
    requires RowKeyed(Lookup(s.rows, call.name), KeysOf(call.name))
    ensures var p := RunCall(s, call, os);
      Keyed(p.thread, KeysOf(call.name)) && RowKeyed(Lookup(p.stores.rows, call.name), KeysOf(call.name))
  {
    if os != [] {
      var p := RunCall(s, call, os[..|os| - 1]);
      RunKeyed(s, call, os[..|os| - 1]);
      if Active(p.thread) {
        StepKeyed(p, KeysOf(call.name), os[|os| - 1]);
      }
    }
  }

  lemma {:induction false} RunLeavesOtherRows(s: Stores, call: Call, os: seq<Outcome>, n: string)
    requires RowKeyed(Lookup(s.rows, call.name), KeysOf(call.name)) && n != call.name
    ensures Lookup(RunCall(s, call, os).stores.rows, n) == Lookup(s.rows, n)
  {
    if os != [] {
      var p := RunCall(s, call, os[..|os| - 1]);
      RunLeavesOtherRows(s, call, os[..|os| - 1], n);
      RunKeyed(s, call, os[..|os| - 1]);
      if Active(p.thread) {
        KeyedOwns(p.thread, KeysOf(call.name));
      }
    }
  }

  lemma {:induction false} SerialRunKeyed(s: Stores, hist: seq<Entry>, names: set<string>)
    requires RowsKeyed(s, names) && forall i :: 0 <= i < |hist| ==> hist[i].call.name in names
    ensures RowsKeyed(SerialRun(s, hist), names)
  {
    if hist != [] {
      var e, before := hist[|hist| - 1], hist[..|hist| - 1];
      SerialRunKeyed(s, before, names);
      var t := SerialRun(s, before);
      forall n | n in names ensures RowKeyed(Lookup(SerialRun(s, hist).rows, n), KeysOf(n)) {
        if n == e.call.name {
          RunKeyed(t, e.call, e.outcomes);
        } else {
          RunLeavesOtherRows(t, e.call, e.outcomes, n);
        }
      }
    }
  }

  // ---------------------------------------------------------------- commuting

  /** A statement of one project moves past a whole call of another. */
  lemma {:induction false} StatementCommutesWithCall(s: Stores, k: Keys, a: Action, o: Outcome, call: Call, os: seq<Outcome>)
    requires Owns(k, a) && Apart(KeysOf(call.name), k)
    requires RowKeyed(Lookup(s.rows, call.name), KeysOf(call.name))
    ensures var p, q := RunCall(s, call, os), RunCall(Perform(s, a, o).stores, call, os);
      && q.thread == p.thread && q.log == p.log
      && q.stores == Perform(p.stores, a, o).stores
      && Perform(p.stores, a, o).reply == Perform(s, a, o).reply
  {
    if os != [] {
      var init, last := os[..|os| - 1], os[|os| - 1];
      var p := RunCall(s, call, init);
      StatementCommutesWithCall(s, k, a, o, call, init);
      RunKeyed(s, call, init);
      if Active(p.thread) {
        var j := KeysOf(call.name);
        KeyedOwns(p.thread, j);
        StatementsCommute(p.stores, j, ActionOf(p.thread), last, k, a, o);
        StatementsCommute(p.stores, k, a, o, j, ActionOf(p.thread), last);
      }
    }
  }

  predicate LaterNamesDiffer(hist: seq<Entry>, at: nat) {
    at < |hist| && forall j :: at < j < |hist| ==> hist[j].call.name != hist[at].call.name
  }

  lemma SerialSnoc(s: Stores, before: seq<Entry>, e: Entry)
    ensures SerialRun(s, before + [e]) == RunCall(SerialRun(s, before), e.call, e.outcomes).stores
  {
    assert (before + [e])[..|before|] == before;
  }

  lemma CutLast(hist: seq<Entry>) returns (before: seq<Entry>, e: Entry)
    requires hist != []
    ensures hist == before + [e] && forall i :: 0 <= i < |before| ==> before[i] == hist[i]
  {
    before, e := hist[..|hist| - 1], hist[|hist| - 1];
  }

  /** Calls run after others start from what those leave. */
  lemma {:induction false} SerialAppend(s: Stores, first: seq<Entry>, later: seq<Entry>)
    ensures SerialRun(s, first + later) == SerialRun(SerialRun(s, first), later)
    decreases |later|
  {
    if later == [] {
      assert first + later == first;
    } else {
      var before, e := CutLast(later);
      SerialAppend(s, first, before);
      assert first + later == (first + before) + [e];
      SerialSnoc(s, first + before, e);
      SerialSnoc(SerialRun(s, first), before, e);
    }
  }

  /** A statement of one project moves past one call of another. */
  lemma PastOneCall(t: Stores, u: Stores, e: Entry, k: Keys, a: Action, o: Outcome)
    requires Owns(k, a) && Apart(KeysOf(e.call.name), k) && RowKeyed(Lookup(t.rows, e.call.name), KeysOf(e.call.name))
    requires u == Perform(t, a, o).stores
    ensures RunCall(u, e.call, e.outcomes).stores == Perform(RunCall(t, e.call, e.outcomes).stores, a, o).stores
    ensures Perform(RunCall(t, e.call, e.outcomes).stores, a, o).reply == Perform(t, a, o).reply
  {
    StatementCommutesWithCall(t, k, a, o, e.call, e.outcomes);
  }

  /** So it moves past any calls of others. */
  lemma {:induction false} PastCalls(t: Stores, later: seq<Entry>, k: Keys, a: Action, o: Outcome, names: set<string>)
    requires RowsKeyed(t, names) && Owns(k, a)
    requires forall i :: 0 <= i < |later| ==> later[i].call.name in names && Apart(KeysOf(later[i].call.name), k)
    ensures SerialRun(Perform(t, a, o).stores, later) == Perform(SerialRun(t, later), a, o).stores
    ensures Perform(SerialRun(t, later), a, o).reply == Perform(t, a, o).reply
    decreases |later|
  {
    if later != [] {
      var before, e := CutLast(later);
      PastCalls(t, before, k, a, o, names);
      SerialRunKeyed(t, before, names);
      assert e == later[|before|];
      SerialSnoc(t, before, e);
      SerialSnoc(Perform(t, a, o).stores, before, e);
      PastOneCall(SerialRun(t, before), SerialRun(Perform(t, a, o).stores, before), e, k, a, o);
    }
  }

  /** The call in the history works on its own project. */
  lemma SerialCallOwns(s: Stores, hist: seq<Entry>, at: nat, names: set<string>)
    requires RowsKeyed(s, names) && forall i :: 0 <= i < |hist| ==> hist[i].call.name in names
    requires at < |hist| && Active(SerialCall(s, hist, at).thread)
    ensures Owns(KeysOf(hist[at].call.name), ActionOf(SerialCall(s, hist, at).thread))
  {
    SerialRunKeyed(s, hist[..at], names);
    RunKeyed(SerialRun(s, hist[..at]), hist[at].call, hist[at].outcomes);
    KeyedOwns(SerialCall(s, hist, at).thread, KeysOf(hist[at].call.name));
  }

  lemma CutAt(hist: seq<Entry>, at: nat, o: Outcome) returns (before: seq<Entry>, later: seq<Entry>)
    requires at < |hist|
    ensures before == hist[..at] && hist == before + [hist[at]] + later && |later| == |hist| - at - 1
    ensures forall i :: 0 <= i < |later| ==> later[i] == hist[at + 1 + i]
    ensures Recorded(hist, at, o) == before + [hist[at].(outcomes := hist[at].outcomes + [o])] + later
  {
    before, later := hist[..at], hist[at + 1..];
  }

  /** The stores after a call in the history and those after it. */
  lemma SerialThrough(s: Stores, before: seq<Entry>, e: Entry, later: seq<Entry>)
    ensures SerialRun(s, before + [e] + later) == SerialRun(RunCall(SerialRun(s, before), e.call, e.outcomes).stores, later)
  {
    SerialAppend(s, before + [e], later);
    SerialSnoc(s, before, e);
  }

  lemma OneMoreStep(t: Stores, e: Entry, o: Outcome)
    requires Active(RunCall(t, e.call, e.outcomes).thread)
    ensures var p := RunCall(t, e.call, e.outcomes);
      RunCall(t, e.call, e.outcomes + [o]).stores == Perform(p.stores, ActionOf(p.thread), o).stores
  {
    RunCallSnoc(t, e.call, e.outcomes, o);
  }

  lemma LaterAreApart(hist: seq<Entry>, at: nat, later: seq<Entry>, names: set<string>)
    requires Separate(names) && LaterNamesDiffer(hist, at) && forall i :: 0 <= i < |hist| ==> hist[i].call.name in names
    requires |later| == |hist| - at - 1 && forall i :: 0 <= i < |later| ==> later[i] == hist[at + 1 + i]
    ensures forall i :: 0 <= i < |later| ==>
      later[i].call.name in names && Apart(KeysOf(later[i].call.name), KeysOf(hist[at].call.name))
  {
  }

  lemma SerialCallKeepsRowsKeyed(s: Stores, hist: seq<Entry>, at: nat, names: set<string>)
    requires RowsKeyed(s, names) && at < |hist| && forall i :: 0 <= i < |hist| ==> hist[i].call.name in names
    ensures RowsKeyed(SerialCall(s, hist, at).stores, names)
  {
    SerialRunKeyed(s, hist[..at] + [hist[at]], names);
    SerialSnoc(s, hist[..at], hist[at]);
  }

  /**
   Giving the `at`th call one more outcome is, for the serial run, the same as
   performing that statement last, because every later call is on another name.
   */
  lemma OneMoreOutcome(s: Stores, hist: seq<Entry>, at: nat, o: Outcome, names: set<string>)
    requires Separate(names) && RowsKeyed(s, names) && forall i :: 0 <= i < |hist| ==> hist[i].call.name in names
    requires LaterNamesDiffer(hist, at) && Active(SerialCall(s, hist, at).thread)
    ensures var p := SerialCall(s, hist, at); var a := ActionOf(p.thread);
      && SerialRun(s, Recorded(hist, at, o)) == Perform(SerialRun(s, hist), a, o).stores
      && Perform(SerialRun(s, hist), a, o).reply == Perform(p.stores, a, o).reply
  {
    var p, e := SerialCall(s, hist, at), hist[at];
    var before, later := CutAt(hist, at, o);
    SerialThrough(s, before, e, later);
    SerialThrough(s, before, e.(outcomes := e.outcomes + [o]), later);
    OneMoreStep(SerialRun(s, before), e, o);
    SerialCallOwns(s, hist, at, names);
    SerialCallKeepsRowsKeyed(s, hist, at, names);
    LaterAreApart(hist, at, later, names);
    PastCalls(p.stores, later, KeysOf(e.call.name), ActionOf(p.thread), o, names);
  }

  /** The one more outcome changes no other call of the serial run: neither its position nor its log. */
  lemma OtherCallsUnmoved(s: Stores, hist: seq<Entry>, at: nat, o: Outcome, names: set<string>, i: nat)
    requires Separate(names) && RowsKeyed(s, names) && forall i :: 0 <= i < |hist| ==> hist[i].call.name in names
    requires LaterNamesDiffer(hist, at) && Active(SerialCall(s, hist, at).thread)
    requires i < |hist| && i != at
    ensures SerialCall(s, Recorded(hist, at, o), i).thread == SerialCall(s, hist, i).thread
    ensures SerialCall(s, Recorded(hist, at, o), i).log == SerialCall(s, hist, i).log
  {
    var hist' := Recorded(hist, at, o);
    if i < at {
      assert hist'[..i] == hist[..i];
    } else {
      var before := hist[..i];
      assert before[..at] == hist[..at];
      assert hist'[..i] == Recorded(before, at, o);
      OneMoreOutcome(s, before, at, o, names);
      SerialCallOwns(s, hist, at, names);
      SerialRunKeyed(s, before, names);
      var k := KeysOf(hist[at].call.name);
      StatementCommutesWithCall(SerialRun(s, before), k, ActionOf(SerialCall(s, hist, at).thread), o, hist[i].call, hist[i].outcomes);
    }
  }

  // ---------------------------------------------------------------- the invariant

  /** The place of the process in the history, once it has one. */
  function Place(ph: Phase): Option<nat> {
    match ph
    case Critical(_, _, at, _) => Some(at)
    case ReleaseCreate(_, at, _) => Some(at)
    case Exited(at, _) => Some(at)
    case _ => None
  }

  /** The process is where the serial run leaves its call. */
  predicate Placed(s: Stores, hist: seq<Entry>, q: Proc) {
    Place(q.phase).Some? ==>
      var at := Place(q.phase).value;
      && at < |hist| && hist[at].call == q.call
      && (q.phase.Critical? ==> SerialCall(s, hist, at).thread == q.phase.thread && LaterNamesDiffer(hist, at))
      && (q.phase.ReleaseCreate? || q.phase.Exited? ==> SerialCall(s, hist, at).thread.pc == Finished(q.phase.result))
  }

  ghost predicate Serialised(s: Stores, names: set<string>, t: Sys) {
    && t.stores == SerialRun(s, t.hist)
    && (forall i :: 0 <= i < |t.hist| ==> t.hist[i].call.name in names)
    && (forall p :: p in t.procs ==> t.procs[p].call.name in names && Placed(s, t.hist, t.procs[p]))
    && (forall p, q :: p in t.procs && q in t.procs && p != q && Place(t.procs[p].phase).Some? ==>
          Place(t.procs[p].phase) != Place(t.procs[q].phase))
  }

  lemma GrownCall(s: Stores, hist: seq<Entry>, at: nat, o: Outcome)
    requires at < |hist| && Active(SerialCall(s, hist, at).thread)
    ensures var p := SerialCall(s, hist, at);
      SerialCall(s, Recorded(hist, at, o), at) == Step(p, o)
  {
    assert Recorded(hist, at, o)[..at] == hist[..at];
    RunCallSnoc(SerialRun(s, hist[..at]), hist[at].call, hist[at].outcomes, o);
  }

  lemma RecordedKeepsNames(hist: seq<Entry>, at: nat, o: Outcome)
    requires at < |hist|
    ensures var u := Recorded(hist, at, o);
      |u| == |hist| && (forall i :: 0 <= i < |hist| ==> u[i].call == hist[i].call)
    ensures LaterNamesDiffer(hist, at) ==> LaterNamesDiffer(Recorded(hist, at, o), at)
  {
  }

  /** The history grows by the outcome, and the stores stay those of the serial run. */
  lemma StatementMovesHistory(s: Stores, names: set<string>, t: Sys, p: nat, o: Outcome)
    requires Separate(names) && RowsKeyed(s, names) && t.stores == SerialRun(s, t.hist)
    requires forall i :: 0 <= i < |t.hist| ==> t.hist[i].call.name in names
    requires p in t.procs && t.procs[p].phase.Critical? && Active(t.procs[p].phase.thread) && Placed(s, t.hist, t.procs[p])
    ensures var at, th := t.procs[p].phase.at, t.procs[p].phase.thread;
      && SerialRun(s, Recorded(t.hist, at, o)) == Perform(t.stores, ActionOf(th), o).stores
      && SerialCall(s, Recorded(t.hist, at, o), at).thread == Resume(th, Perform(t.stores, ActionOf(th), o).reply)
  {
    var at := t.procs[p].phase.at;
    OneMoreOutcome(s, t.hist, at, o, names);
    GrownCall(s, t.hist, at, o);
  }

  lemma StatementShape(t: Sys, p: nat, o: Outcome)
    requires p in t.procs && t.procs[p].phase.Critical? && Active(t.procs[p].phase.thread)
    ensures var u, ph := Statement(t, p, o), t.procs[p].phase;
      var e := Perform(t.stores, ActionOf(ph.thread), o);
      && u.stores == e.stores && u.hist == Recorded(t.hist, ph.at, o)
      && u.procs == t.procs[p := Proc(t.procs[p].call, ph.(thread := Resume(ph.thread, e.reply)))]
  {
  }

  lemma PlacedCritical(s: Stores, hist: seq<Entry>, q: Proc)
    requires q.phase.Critical? && q.phase.at < |hist| && hist[q.phase.at].call == q.call
    requires SerialCall(s, hist, q.phase.at).thread == q.phase.thread && LaterNamesDiffer(hist, q.phase.at)
    ensures Placed(s, hist, q)
  {
  }

  lemma MovedCallIsPlaced(s: Stores, names: set<string>, t: Sys, p: nat, o: Outcome)
    requires Separate(names) && RowsKeyed(s, names) && t.stores == SerialRun(s, t.hist)
    requires forall i :: 0 <= i < |t.hist| ==> t.hist[i].call.name in names
    requires p in t.procs && t.procs[p].phase.Critical? && Active(t.procs[p].phase.thread) && Placed(s, t.hist, t.procs[p])
    ensures var u := Statement(t, p, o);
      u.stores == SerialRun(s, u.hist) && Placed(s, u.hist, u.procs[p])
  {
    var u := Statement(t, p, o);
    StatementMovesHistory(s, names, t, p, o);
    RecordedKeepsNames(t.hist, t.procs[p].phase.at, o);
    StatementShape(t, p, o);
    PlacedCritical(s, u.hist, u.procs[p]);
  }

  lemma OtherCallStaysPlaced(s: Stores, names: set<string>, t: Sys, p: nat, o: Outcome, q: nat)
    requires Separate(names) && RowsKeyed(s, names) && Serialised(s, names, t)
    requires p in t.procs && t.procs[p].phase.Critical? && Active(t.procs[p].phase.thread)
    requires q in t.procs && q != p
    ensures Placed(s, Recorded(t.hist, t.procs[p].phase.at, o), t.procs[q])
  {
    var at := t.procs[p].phase.at;
    assert Placed(s, t.hist, t.procs[p]) && Placed(s, t.hist, t.procs[q]);
    if Place(t.procs[q].phase).Some? {
      assert Place(t.procs[p].phase) != Place(t.procs[q].phase);
      OtherCallsUnmoved(s, t.hist, at, o, names, Place(t.procs[q].phase).value);
    }
  }

  /** No other process has the place of `p`'s new phase. */
  predicate PlaceIsFree(t: Sys, p: nat, ph: Phase) {
    forall q :: q in t.procs && q != p && Place(ph).Some? ==> Place(t.procs[q].phase) != Place(ph)
  }

  /** The invariant after `p` moved, from the placement of every process. */
  lemma AssembleSerial(s: Stores, names: set<string>, t: Sys, u: Sys, p: nat)
    requires Serialised(s, names, t) && p in t.procs && p in u.procs && u.procs == t.procs[p := u.procs[p]]
    requires u.procs[p].call == t.procs[p].call && u.stores == SerialRun(s, u.hist)
    requires forall i :: 0 <= i < |u.hist| ==> u.hist[i].call.name in names
    requires Placed(s, u.hist, u.procs[p]) && PlaceIsFree(t, p, u.procs[p].phase)
    requires forall q :: q in t.procs && q != p ==> Placed(s, u.hist, t.procs[q])
    ensures Serialised(s, names, u)
  {
    forall q | q in u.procs ensures u.procs[q].call.name in names && Placed(s, u.hist, u.procs[q]) {
      if q != p {
        assert Placed(s, u.hist, t.procs[q]);
      }
    }
    forall q, r | q in u.procs && r in u.procs && q != r && Place(u.procs[q].phase).Some?
      ensures Place(u.procs[q].phase) != Place(u.procs[r].phase)
    {
      if q != p && r != p {
        assert Place(t.procs[q].phase) != Place(t.procs[r].phase);
      }
    }
  }

  lemma OthersStayPlaced(s: Stores, names: set<string>, t: Sys, p: nat, o: Outcome)
    requires Separate(names) && RowsKeyed(s, names) && Serialised(s, names, t)
    requires p in t.procs && t.procs[p].phase.Critical? && Active(t.procs[p].phase.thread)
    ensures forall q :: q in t.procs && q != p ==> Placed(s, Recorded(t.hist, t.procs[p].phase.at, o), t.procs[q])
  {
    forall q | q in t.procs && q != p ensures Placed(s, Recorded(t.hist, t.procs[p].phase.at, o), t.procs[q]) {
      OtherCallStaysPlaced(s, names, t, p, o, q);
    }
  }

  lemma SamePlaceIsFree(s: Stores, names: set<string>, t: Sys, p: nat, ph: Phase)
    requires Serialised(s, names, t) && p in t.procs && Place(ph) == Place(t.procs[p].phase)
    ensures PlaceIsFree(t, p, ph)
  {
  }

  lemma StatementKeepsSerial(s: Stores, names: set<string>, t: Sys, p: nat, o: Outcome)
    requires Separate(names) && RowsKeyed(s, names) && Serialised(s, names, t)
    requires p in t.procs && t.procs[p].phase.Critical? && Active(t.procs[p].phase.thread)
    ensures Serialised(s, names, Statement(t, p, o))
  {
    var u := Statement(t, p, o);
    assert Placed(s, t.hist, t.procs[p]);
    StatementShape(t, p, o);
    RecordedKeepsNames(t.hist, t.procs[p].phase.at, o);
    MovedCallIsPlaced(s, names, t, p, o);
    OthersStayPlaced(s, names, t, p, o);
    SamePlaceIsFree(s, names, t, p, u.procs[p].phase);
    AssembleSerial(s, names, t, u, p);
  }

  lemma AppendKeepsPlaced(s: Stores, hist: seq<Entry>, e: Entry, q: Proc)
    requires Placed(s, hist, q)
    requires q.phase.Critical? ==> e.call.name != q.call.name
    ensures Placed(s, hist + [e], q)
  {
    if Place(q.phase).Some? {
      var at := Place(q.phase).value;
      assert (hist + [e])[..at] == hist[..at];
    }
  }

  lemma AcquireShape(t: Sys, p: nat, o: Outcome)
    requires p in t.procs && t.procs[p].phase.WantService? && CanStep(t, p)
    ensures var u, ph, call := ProcStep(t, p, o), t.procs[p].phase, t.procs[p].call;
      && u.stores == t.stores && u.audit == t.audit && u.monitors == t.monitors && u.allowDrop == t.allowDrop
      && u.hist == t.hist + [Entry(call, [])]
      && u.procs == t.procs[p := Proc(call, Critical(ph.held, ph.mutex, |t.hist|, Start(call)))]
  {
  }

  lemma FirstPlace(s: Stores, hist: seq<Entry>, q: Proc)
    requires q.phase.Critical? && q.phase.at == |hist| && q.phase.thread == Start(q.call)
    ensures Placed(s, hist + [Entry(q.call, [])], q)
  {
  }

  lemma OthersStayPlacedOnAppend(s: Stores, names: set<string>, t: Sys, p: nat, e: Entry)
    requires Serialised(s, names, t) && p in t.procs
    requires forall q :: q in t.procs && t.procs[q].phase.Critical? ==> t.procs[q].call.name != e.call.name
    ensures forall q :: q in t.procs ==> Placed(s, t.hist + [e], t.procs[q]) && Place(t.procs[q].phase) != Some(|t.hist|)
  {
    forall q | q in t.procs ensures Placed(s, t.hist + [e], t.procs[q]) && Place(t.procs[q].phase) != Some(|t.hist|) {
      assert Placed(s, t.hist, t.procs[q]);
      AppendKeepsPlaced(s, t.hist, e, t.procs[q]);
    }
  }

  lemma AcquireKeepsSerial(s: Stores, names: set<string>, t: Sys, p: nat, o: Outcome)
    requires WellLocked(t) && Serialised(s, names, t)
    requires p in t.procs && t.procs[p].phase.WantService? && CanStep(t, p)
    ensures Serialised(s, names, ProcStep(t, p, o))
  {
    var u, e := ProcStep(t, p, o), Entry(t.procs[p].call, []);
    AcquireShape(t, p, o);
    NobodyInside(t, p);
    OthersStayPlacedOnAppend(s, names, t, p, e);
    SerialSnoc(s, t.hist, e);
    FirstPlace(s, t.hist, u.procs[p]);
    AssembleSerial(s, names, t, u, p);
  }

  /** While a service mutex is free, nobody is in the critical section of its name. */
  lemma NobodyInside(t: Sys, p: nat)
    requires WellLocked(t) && p in t.procs && t.procs[p].phase.WantService? && CanStep(t, p)
    ensures forall q :: q in t.procs && t.procs[q].phase.Critical? ==> t.procs[q].call.name != t.procs[p].call.name
  {
    assert ProcOk(t, p, t.procs[p]);
    forall q | q in t.procs && t.procs[q].phase.Critical?
      ensures t.procs[q].call.name != t.procs[p].call.name
    {
      assert ProcOk(t, q, t.procs[q]);
    }
  }

  /** A step that touches neither stores nor history, and leaves the process at its place. */
  lemma QuietStepKeepsSerial(s: Stores, names: set<string>, t: Sys, u: Sys, p: nat)
    requires Serialised(s, names, t) && p in t.procs && p in u.procs && u.procs == t.procs[p := u.procs[p]]
    requires u.stores == t.stores && u.hist == t.hist && u.procs[p].call == t.procs[p].call
    requires Place(u.procs[p].phase) == Place(t.procs[p].phase) && Placed(s, t.hist, u.procs[p])
    ensures Serialised(s, names, u)
  {
  }

  lemma ReleaseServiceKeepsSerial(s: Stores, names: set<string>, t: Sys, p: nat)
    requires Serialised(s, names, t)
    requires p in t.procs && t.procs[p].phase.Critical? && !Active(t.procs[p].phase.thread)
    ensures Serialised(s, names, ReleaseService(t, p))
  {
    assert Placed(s, t.hist, t.procs[p]);
    QuietStepKeepsSerial(s, names, t, ReleaseService(t, p), p);
  }

  /** A lock step of one process: stores, log, history and facts stay, and so do the process's call and place. */
  predicate QuietMove(t: Sys, u: Sys, p: nat)
    requires p in t.procs
  {
    && u.stores == t.stores && u.audit == t.audit && u.hist == t.hist && u.monitors == t.monitors && u.allowDrop == t.allowDrop
    && p in u.procs && u.procs == t.procs[p := u.procs[p]] && u.procs[p].call == t.procs[p].call
    && var v, w := t.procs[p].phase, u.procs[p].phase;
       Place(w) == Place(v) && !w.Critical? && !w.ReleaseCreate? && (w.Exited? ==> v.ReleaseCreate? && w.result == v.result)
  }

  lemma CreateLockIsQuiet(t: Sys, p: nat, o: Outcome)
    requires p in t.procs && CanStep(t, p) && BeforeCreateMutex(t.procs[p].phase)
    ensures QuietMove(t, ProcStep(t, p, o), p)
  {
  }

  lemma ServiceLockIsQuiet(t: Sys, p: nat, o: Outcome)
    requires p in t.procs && CanStep(t, p) && !BeforeCreateMutex(t.procs[p].phase)
    requires !t.procs[p].phase.Critical? && !t.procs[p].phase.WantService?
    ensures QuietMove(t, ProcStep(t, p, o), p)
  {
  }

  lemma ProtocolIsQuiet(t: Sys, p: nat, o: Outcome)
    requires p in t.procs && CanStep(t, p) && !t.procs[p].phase.Critical? && !t.procs[p].phase.WantService?
    ensures QuietMove(t, ProcStep(t, p, o), p)
  {
    if BeforeCreateMutex(t.procs[p].phase) {
      CreateLockIsQuiet(t, p, o);
    } else {
      ServiceLockIsQuiet(t, p, o);
    }
  }

  lemma ProtocolKeepsSerial(s: Stores, names: set<string>, t: Sys, p: nat, o: Outcome)
    requires Serialised(s, names, t)
    requires p in t.procs && CanStep(t, p) && !t.procs[p].phase.Critical? && !t.procs[p].phase.WantService?
    ensures Serialised(s, names, ProcStep(t, p, o))
  {
    assert Placed(s, t.hist, t.procs[p]);
    ProtocolIsQuiet(t, p, o);
    QuietStepKeepsSerial(s, names, t, ProcStep(t, p, o), p);
  }

  lemma SpawnKeepsSerial(s: Stores, names: set<string>, t: Sys, e: Event)
    requires WellLocked(t) && Serialised(s, names, t) && Enabled(t, e) && e.Spawn? && e.call.name in names
    ensures Serialised(s, names, Apply(t, e))
  {
    NextProcIsNew(t);
  }

  lemma CrashKeepsSerial(s: Stores, names: set<string>, t: Sys)
    requires Serialised(s, names, t)
    ensures Serialised(s, names, Apply(t, Crash))
  {
  }

  lemma EventKeepsSerial(s: Stores, names: set<string>, t: Sys, e: Event)
    requires Separate(names) && RowsKeyed(s, names) && WellLocked(t) && Serialised(s, names, t)
    requires Enabled(t, e) && (e.Spawn? ==> e.call.name in names)
    ensures Serialised(s, names, Apply(t, e))
  {
    match e
    case Spawn(_) => SpawnKeepsSerial(s, names, t, e);
    case Crash => CrashKeepsSerial(s, names, t);
    case Advance(p, o) =>
      if t.procs[p].phase.WantService? {
        AcquireKeepsSerial(s, names, t, p, o);
      } else if !t.procs[p].phase.Critical? {
        ProtocolKeepsSerial(s, names, t, p, o);
      } else if Active(t.procs[p].phase.thread) {
        StatementKeepsSerial(s, names, t, p, o);
      } else {
        ReleaseServiceKeepsSerial(s, names, t, p);
      }
  }

  lemma {:induction false} PlayKeepsSerial(s: Sys, names: set<string>, events: seq<Event>)
    requires Separate(names) && RowsKeyed(s.stores, names) && CallsIn(events, names)
    requires WellLocked(s) && s.hist == [] && s.procs == map[]
    requires Play(s, events).Some?
    ensures Serialised(s.stores, names, Play(s, events).value)
  {
    if events != [] {
      var init := events[..|events| - 1];
      PlaySnoc(s, events);
      PlayKeepsSerial(s, names, init);
      PlayKeepsLocks(s, init);
      EventKeepsSerial(s.stores, names, Play(s, init).value, events[|events| - 1]);
    }
  }

  /** The call returned what the serial run of the history makes it return. */
  predicate HasSerialResult(s: Stores, hist: seq<Entry>, q: Proc)
    requires q.phase.Exited?
  {
    var at := q.phase.at;
    at < |hist| && hist[at].call == q.call && SerialCall(s, hist, at).thread.pc == Finished(q.phase.result)
  }

  /**
   Every run over names with pairwise distinct identifiers, crashes included:
   the stores are those of the serial run in order of service-lock acquisition
   with the same outcomes, and every call that returned has a place of its own
   in that order and its serial result.
   */
  lemma Serialisable(stores: Stores, audit: seq<Record>, allowDrop: bool, names: set<string>, events: seq<Event>, s: Sys)
    requires Separate(names) && RowsKeyed(stores, names) && CallsIn(events, names)
    requires Play(Initial(stores, audit, allowDrop), events) == Some(s)
    ensures s.stores == SerialRun(stores, s.hist)
    ensures forall p :: p in s.procs && s.procs[p].phase.Exited? ==> HasSerialResult(stores, s.hist, s.procs[p])
    ensures forall p, q :: p in s.procs && q in s.procs && p != q && s.procs[p].phase.Exited? && s.procs[q].phase.Exited? ==>
      s.procs[p].phase.at != s.procs[q].phase.at
  {
    PlayKeepsSerial(Initial(stores, audit, allowDrop), names, events);
    forall p | p in s.procs && s.procs[p].phase.Exited? ensures HasSerialResult(stores, s.hist, s.procs[p]) {
      assert Placed(stores, s.hist, s.procs[p]);
    }
    DistinctPlaces(stores, names, s);
  }

  lemma DistinctPlaces(s: Stores, names: set<string>, t: Sys)
    requires Serialised(s, names, t)
    ensures forall p, q :: p in t.procs && q in t.procs && p != q && t.procs[p].phase.Exited? && t.procs[q].phase.Exited? ==>
      t.procs[p].phase.at != t.procs[q].phase.at
  {
    forall p, q | p in t.procs && q in t.procs && p != q && t.procs[p].phase.Exited? && t.procs[q].phase.Exited?
      ensures t.procs[p].phase.at != t.procs[q].phase.at
    {
      assert Place(t.procs[p].phase) != Place(t.procs[q].phase);
    }
  }
}

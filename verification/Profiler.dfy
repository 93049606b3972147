/** Task timings: an overwriting ring per thread, and a collector that reports each timing at most once. */
module Profilers {
  import opened Wrappers

  datatype TaskTiming = TaskTiming(location: nat, start: int, end: Option<int>)

  /** What a poll sees of one thread. */
  datatype Snapshot = Snapshot(thread: nat, timings: seq<TaskTiming>, totalPushed: nat)

  datatype Delta = Delta(thread: nat, newTimings: seq<TaskTiming>)

  /** The ring after a push: the oldest entry gives way when the ring is full. */
  function Overwritten(ring: seq<TaskTiming>, capacity: nat, t: TaskTiming): seq<TaskTiming>
    requires |ring| <= capacity && capacity > 0
  {
    if |ring| == capacity then ring[1..] + [t] else ring + [t]
  }

  predicate Completes(last: TaskTiming, t: TaskTiming) {
    last.location == t.location && last.start == t.start
  }

  class ThreadTimings {
    const capacity: nat
    var timings: seq<TaskTiming>
    var totalPushed: nat
    /** Everything ever pushed, with the last entry as completed in place. */
    ghost var log: seq<TaskTiming>

    ghost predicate Valid()
      reads this
    {
      capacity > 0 && totalPushed == |log| && timings == Kept(log, capacity)
    }

    constructor (capacity: nat)
      requires capacity > 0
      ensures Valid() && log == [] && this.capacity == capacity
    {
      this.capacity := capacity;
      timings, totalPushed, log := [], 0, [];
    }

    method AddTaskTiming(t: TaskTiming)
      requires Valid()
      modifies this
      ensures Valid() && log == Logged(old(log), t)
    {
      KeptSize(log, capacity);
      ghost var was := log;
      log := Logged(log, t);
      if |timings| > 0 {
        var last := timings[|timings| - 1];
        if last.location == t.location && last.start == t.start {
          CompletedInPlace(was, capacity, t);
          timings := timings[|timings| - 1 := last.(end := t.end)];
          return;
        }
      }
      PushedAtEnd(was, capacity, t);
      timings := Overwritten(timings, capacity, t);
      totalPushed := totalPushed + 1;
    }

    method TakeSnapshot(thread: nat) returns (s: Snapshot)
      requires Valid()
      ensures s == SnapshotOf(thread, log, capacity)
    {
      s := Snapshot(thread, timings, totalPushed);
    }
  }

  // ----- the log behind the ring -----

  function Logged(log: seq<TaskTiming>, t: TaskTiming): seq<TaskTiming> {
    if log != [] && Completes(log[|log| - 1], t) then log[|log| - 1 := log[|log| - 1].(end := t.end)]
    else log + [t]
  }

  function Evicted(total: nat, capacity: nat): nat {
    if total < capacity then 0 else total - capacity
  }

  function Kept(log: seq<TaskTiming>, capacity: nat): seq<TaskTiming> {
    log[Evicted(|log|, capacity)..]
  }

  function SnapshotOf(thread: nat, log: seq<TaskTiming>, capacity: nat): Snapshot {
    Snapshot(thread, Kept(log, capacity), |log|)
  }

  lemma {:induction false} KeptSize(log: seq<TaskTiming>, capacity: nat)
    requires capacity > 0
    ensures |Kept(log, capacity)| <= capacity && (log != [] ==> Kept(log, capacity) != [])
    ensures log != [] ==> Kept(log, capacity)[|Kept(log, capacity)| - 1] == log[|log| - 1]
  {
  }

  lemma {:induction false} CompletedInPlace(log: seq<TaskTiming>, capacity: nat, t: TaskTiming)
    requires capacity > 0 && log != [] && Completes(log[|log| - 1], t)
    ensures var ring := Kept(log, capacity);
            ring != [] && Kept(Logged(log, t), capacity) == ring[|ring| - 1 := ring[|ring| - 1].(end := t.end)]
  {
  }

  lemma {:induction false} PushedAtEnd(log: seq<TaskTiming>, capacity: nat, t: TaskTiming)
    requires capacity > 0 && (log != [] ==> !Completes(log[|log| - 1], t))
    ensures |Kept(log, capacity)| <= capacity
    ensures Kept(Logged(log, t), capacity) == Overwritten(Kept(log, capacity), capacity, t)
  {
  }

  /** The log of a thread that has pushed these timings. */
  function LogOfPushes(pushes: seq<TaskTiming>): seq<TaskTiming>
    decreases |pushes|
  {
    if pushes == [] then [] else Logged(LogOfPushes(pushes[..|pushes| - 1]), pushes[|pushes| - 1])
  }

  /** The timings not followed at once by another of the same location and start. */
  function Finals(pushes: seq<TaskTiming>): seq<TaskTiming>
    decreases |pushes|
  {
    if |pushes| <= 1 then pushes
    else if pushes[0].location == pushes[1].location && pushes[0].start == pushes[1].start then Finals(pushes[1..])
    else [pushes[0]] + Finals(pushes[1..])
  }

  lemma {:induction false} FinalsGrow(pushes: seq<TaskTiming>, t: TaskTiming)
    requires pushes != []
    ensures var last, finals := pushes[|pushes| - 1], Finals(pushes);
            && finals != [] && finals[|finals| - 1] == last
            && Finals(pushes + [t]) == if last.location == t.location && last.start == t.start
                                       then finals[..|finals| - 1] + [t] else finals + [t]
    decreases |pushes|
  {
    var more := pushes + [t];
    if |pushes| == 1 {
      assert more[1..] == [t];
    } else {
      assert more[1..] == pushes[1..] + [t] && more[0] == pushes[0] && more[1] == pushes[1];
      FinalsGrow(pushes[1..], t);
    }
  }

  /** A timing of the same location and start as the last entry changes nothing but the end of that entry; any other
      becomes a new one. */
  lemma CompletionChangesLastEnd(log: seq<TaskTiming>, t: TaskTiming)
    ensures var last := if log == [] then None else Some(log[|log| - 1]);
            if last.Some? && last.value.location == t.location && last.value.start == t.start
            then Logged(log, t) == log[..|log| - 1] + [TaskTiming(last.value.location, last.value.start, t.end)]
            else Logged(log, t) == log + [t]
  {
  }

  lemma {:induction false} LoggedFinals(pushes: seq<TaskTiming>, t: TaskTiming)
    requires pushes != []
    ensures Logged(Finals(pushes), t) == Finals(pushes + [t])
  {
    FinalsGrow(pushes, t);
    CompletionChangesLastEnd(Finals(pushes), t);
  }

  /** The log holds, in order, exactly the timings pushed that were not completed by the next one. */
  lemma {:induction false} LogHoldsFinals(pushes: seq<TaskTiming>)
    ensures LogOfPushes(pushes) == Finals(pushes)
    decreases |pushes|
  {
    if pushes != [] {
      var rest, t := pushes[..|pushes| - 1], pushes[|pushes| - 1];
      LogHoldsFinals(rest);
      assert rest + [t] == pushes;
      if rest == [] {
        assert pushes == [t];
      } else {
        LoggedFinals(rest, t);
      }
    }
  }

  ghost predicate NeighboursDiffer(pushes: seq<TaskTiming>) {
    forall k, n :: 0 <= k < n < |pushes| && n == k + 1 ==>
      pushes[k].location != pushes[n].location || pushes[k].start != pushes[n].start
  }

  /** Where no two timings in a row agree in location and start, the log is what was pushed. */
  lemma {:induction false} DifferentTimingsAreKept(pushes: seq<TaskTiming>)
    requires NeighboursDiffer(pushes)
    ensures LogOfPushes(pushes) == pushes
  {
    LogHoldsFinals(pushes);
    AllAreFinal(pushes);
  }

  lemma {:induction false} AllAreFinal(pushes: seq<TaskTiming>)
    requires NeighboursDiffer(pushes)
    ensures Finals(pushes) == pushes
    decreases |pushes|
  {
    if |pushes| > 1 {
      forall k, n | 0 <= k < n < |pushes[1..]| && n == k + 1
        ensures pushes[1..][k].location != pushes[1..][n].location || pushes[1..][k].start != pushes[1..][n].start
      {
        assert pushes[1..][k] == pushes[k + 1] && pushes[1..][n] == pushes[n + 1];
      }
      AllAreFinal(pushes[1..]);
    }
  }

  /** The ring never holds more than its capacity, and exactly the last timings logged. */
  lemma KeptExactly(log: seq<TaskTiming>, capacity: nat)
    ensures |Kept(log, capacity)| == if |log| < capacity then |log| else capacity
    ensures Kept(log, capacity) == log[|log| - |Kept(log, capacity)|..]
  {
  }

  // ----- polling -----

  function Start(s: Snapshot): nat {
    if s.totalPushed < |s.timings| then 0 else s.totalPushed - |s.timings|
  }

  /** What is left of the ring past the cursor. */
  function Unseen(cursor: nat, s: Snapshot): seq<TaskTiming> {
    if cursor < Start(s) then s.timings
    else if cursor - Start(s) < |s.timings| then s.timings[cursor - Start(s)..]
    else []
  }

  predicate HoldsLast(cursor: nat, s: Snapshot) {
    var slice := Unseen(cursor, s);
    slice != [] && slice[|slice| - 1].end.None?
  }

  /** The timings a poll reports for a thread, without a last one still in progress. */
  function Reported(cursor: nat, s: Snapshot): seq<TaskTiming> {
    var slice := Unseen(cursor, s);
    if HoldsLast(cursor, s) then slice[..|slice| - 1] else slice
  }

  function Advanced(cursor: nat, s: Snapshot): nat {
    if HoldsLast(cursor, s) && s.totalPushed > 0 then s.totalPushed - 1 else s.totalPushed
  }

  function CursorOf(cursors: map<nat, nat>, thread: nat): nat {
    if thread in cursors then cursors[thread] else 0
  }

  /** The cursors once one thread has been polled. */
  function Polled(cursors: map<nat, nat>, s: Snapshot): map<nat, nat> {
    cursors[s.thread := Advanced(CursorOf(cursors, s.thread), s)]
  }

  function CursorsAfter(cursors: map<nat, nat>, all: seq<Snapshot>): map<nat, nat>
    decreases |all|
  {
    if all == [] then cursors
    else CursorsAfter(Polled(cursors, all[0]), all[1..])
  }

  function Deltas(cursors: map<nat, nat>, all: seq<Snapshot>): seq<Delta>
    decreases |all|
  {
    if all == [] then []
    else
      var c := CursorOf(cursors, all[0].thread);
      var rest := Deltas(Polled(cursors, all[0]), all[1..]);
      if Reported(c, all[0]) == [] then rest else [Delta(all[0].thread, Reported(c, all[0]))] + rest
  }

  /** What was collected and what the rest will give make the whole. */
  predicate Continues(deltas: seq<Delta>, cursors: map<nat, nat>, rest: seq<Snapshot>, whole: seq<Delta>) {
    deltas + Deltas(cursors, rest) == whole
  }

  lemma {:induction false} ContinuesWith(deltas: seq<Delta>, cursors: map<nat, nat>, all: seq<Snapshot>, i: nat,
                                         whole: seq<Delta>)
    requires i < |all| && Continues(deltas, cursors, all[i..], whole)
    ensures CursorsAfter(cursors, all[i..]) == CursorsAfter(Polled(cursors, all[i]), all[i + 1..])
    ensures var slice := Reported(CursorOf(cursors, all[i].thread), all[i]);
            Continues(if slice == [] then deltas else deltas + [Delta(all[i].thread, slice)],
                      Polled(cursors, all[i]), all[i + 1..], whole)
  {
    assert all[i..][0] == all[i] && all[i..][1..] == all[i + 1..];
  }

  class ProfilingCollector {
    var cursors: map<nat, nat>

    constructor ()
      ensures cursors == map[]
    {
      cursors := map[];
    }

    /** The timings of one thread past its cursor, and the cursor moved past them. */
    method CollectThread(thread: Snapshot) returns (slice: seq<TaskTiming>)
      modifies this
      ensures slice == Reported(CursorOf(old(cursors), thread.thread), thread)
      ensures cursors == Polled(old(cursors), thread)
    {
      var prevCursor := if thread.thread in cursors then cursors[thread.thread] else 0;
      var bufferStart := if thread.totalPushed < |thread.timings| then 0
                         else thread.totalPushed - |thread.timings|;
      if prevCursor < bufferStart {
        slice := thread.timings;
      } else {
        var skip := prevCursor - bufferStart;
        slice := thread.timings[if skip < |thread.timings| then skip else |thread.timings|..];
      }
      assert thread.timings[|thread.timings|..] == [];
      assert slice == Unseen(prevCursor, thread);
      var incompleteAtEnd := slice != [] && slice[|slice| - 1].end.None?;
      if incompleteAtEnd {
        slice := slice[..|slice| - 1];
      }
      var advance := if !incompleteAtEnd then thread.totalPushed
                     else if thread.totalPushed == 0 then 0 else thread.totalPushed - 1;
      cursors := cursors[thread.thread := advance];
    }

    method CollectUnseen(all: seq<Snapshot>) returns (deltas: seq<Delta>)
      modifies this
      ensures deltas == Deltas(old(cursors), all)
      ensures cursors == CursorsAfter(old(cursors), all)
    {
      ghost var whole := Deltas(cursors, all);
      deltas := [];
      var i := 0;
      assert all[0..] == all;
      while i < |all|
        invariant 0 <= i <= |all|
        invariant Continues(deltas, cursors, all[i..], whole)
        invariant CursorsAfter(cursors, all[i..]) == CursorsAfter(old(cursors), all)
      {
        ghost var before := cursors;
        var slice := CollectThread(all[i]);
        ContinuesWith(deltas, before, all, i, whole);
        i := i + 1;
        if slice == [] { continue; }
        deltas := deltas + [Delta(all[i - 1].thread, slice)];
      }
    }

    method Reset()
      modifies this
      ensures cursors == map[]
    {
      cursors := map[];
    }
  }

  function DeltasOf(thread: nat, deltas: seq<Delta>): seq<Delta>
    decreases |deltas|
  {
    if deltas == [] then []
    else if deltas[0].thread == thread then [deltas[0]] + DeltasOf(thread, deltas[1..])
    else DeltasOf(thread, deltas[1..])
  }

  predicate IsPolled(thread: nat, all: seq<Snapshot>) {
    exists s <- all :: s.thread == thread
  }

  lemma {:induction false} NoneAfterFirst(thread: nat, all: seq<Snapshot>)
    requires !IsPolled(thread, all) && all != []
    ensures all[0].thread != thread && !IsPolled(thread, all[1..])
  {
    assert all[0] in all;
    forall s | s in all[1..] ensures s.thread != thread {
      assert s in all;
    }
  }

  /** A thread that is not polled keeps its cursor and is not reported. */
  lemma {:induction false} UnpolledThreadsKeep(cursors: map<nat, nat>, all: seq<Snapshot>, thread: nat)
    requires !IsPolled(thread, all)
    ensures CursorOf(CursorsAfter(cursors, all), thread) == CursorOf(cursors, thread)
    ensures DeltasOf(thread, Deltas(cursors, all)) == []
    decreases |all|
  {
    if all != [] {
      NoneAfterFirst(thread, all);
      UnpolledThreadsKeep(Polled(cursors, all[0]), all[1..], thread);
    }
  }

  /** Threads polled together do not disturb each other: each is reported once, from its own cursor, and not at all
      when it has nothing new. */
  lemma {:induction false} PolledThreadsAreIndependent(cursors: map<nat, nat>, all: seq<Snapshot>, i: nat)
    requires i < |all| && !IsPolled(all[i].thread, all[..i]) && !IsPolled(all[i].thread, all[i + 1..])
    ensures var c := CursorOf(cursors, all[i].thread);
            && CursorOf(CursorsAfter(cursors, all), all[i].thread) == Advanced(c, all[i])
            && DeltasOf(all[i].thread, Deltas(cursors, all))
               == if Reported(c, all[i]) == [] then [] else [Delta(all[i].thread, Reported(c, all[i]))]
    decreases |all|
  {
    var next := Polled(cursors, all[0]);
    if i == 0 {
      UnpolledThreadsKeep(next, all[1..], all[0].thread);
    } else {
      NoneAfterFirst(all[i].thread, all[..i]);
      assert all[1..][..i - 1] == all[..i][1..];
      assert all[1..][i..] == all[i + 1..] && all[1..][i - 1] == all[i];
      PolledThreadsAreIndependent(next, all[1..], i - 1);
    }
  }

  // ----- runs -----

  /** A thread pushes a timing, or the collector polls the thread. */
  datatype Event = Push(timing: TaskTiming) | Poll

  /** One report of a log entry, by its index in the log, and an entry passed over, each with how much had been
      pushed. */
  datatype Report = Report(index: nat, timing: TaskTiming, total: nat)
  datatype Missed = Missed(index: nat, total: nat)

  datatype Run = Run(log: seq<TaskTiming>, cursor: nat, reports: seq<Report>, missed: seq<Missed>)

  function ReportsFrom(from: nat, timings: seq<TaskTiming>, total: nat): seq<Report> {
    seq(|timings|, i requires 0 <= i < |timings| => Report(from + i, timings[i], total))
  }

  function MissedFrom(from: nat, to: nat, total: nat): seq<Missed>
    requires from <= to
  {
    seq(to - from, i requires 0 <= i < to - from => Missed(from + i, total))
  }

  function First(cursor: nat, s: Snapshot): nat {
    if cursor < Start(s) then Start(s) else cursor
  }

  function After(r: Run, capacity: nat, e: Event): Run {
    match e
    case Push(t) => r.(log := Logged(r.log, t))
    case Poll =>
      var s := SnapshotOf(0, r.log, capacity);
      Run(r.log, Advanced(r.cursor, s), r.reports + ReportsFrom(First(r.cursor, s), Reported(r.cursor, s), |r.log|),
          r.missed + MissedFrom(r.cursor, First(r.cursor, s), |r.log|))
  }

  function Outcome(r: Run, capacity: nat, events: seq<Event>): Run
    decreases |events|
  {
    if events == [] then r else Outcome(After(r, capacity, events[0]), capacity, events[1..])
  }

  /** A poll reports the log from the first entry past the cursor that is still in the ring, to the end or, if the
      last is new and in progress, to the one before. */
  lemma {:induction false} PollReportsRange(log: seq<TaskTiming>, cursor: nat, capacity: nat)
    requires capacity > 0 && cursor <= |log|
    ensures var s := SnapshotOf(0, log, capacity);
            var first, next := First(cursor, s), Advanced(cursor, s);
            && first <= next <= |log| && Reported(cursor, s) == log[first..next]
            && first == (if cursor < Evicted(|log|, capacity) then Evicted(|log|, capacity) else cursor)
            && next == (if cursor < |log| && log[|log| - 1].end.None? then |log| - 1 else |log|)
  {
    var s := SnapshotOf(0, log, capacity);
    assert Start(s) == Evicted(|log|, capacity);
    assert Unseen(cursor, s) == log[First(cursor, s)..];
    if HoldsLast(cursor, s) {
      assert Reported(cursor, s) == log[First(cursor, s)..|log| - 1];
    }
  }

  ghost predicate InLogOrder(reports: seq<Report>, cursor: nat) {
    && (forall i, j :: 0 <= i < j < |reports| ==> reports[i].index < reports[j].index)
    && (forall r <- reports :: r.index < cursor)
  }

  ghost predicate IsReported(reports: seq<Report>, index: nat) {
    exists r <- reports :: r.index == index
  }

  ghost predicate IsMissed(missed: seq<Missed>, index: nat) {
    exists m <- missed :: m.index == index
  }

  /** Every entry before the cursor was reported or passed over. */
  ghost predicate Covered(r: Run) {
    forall i: nat | i < r.cursor :: IsReported(r.reports, i) || IsMissed(r.missed, i)
  }

  /** An entry passed over had left the ring by that poll, and is reported at no other. */
  ghost predicate MissedWereEvicted(r: Run, capacity: nat) {
    forall m <- r.missed :: && m.index < r.cursor && m.index < Evicted(m.total, capacity) && m.total <= |r.log|
                            && !IsReported(r.reports, m.index)
  }

  /** The report carries its log entry: as the entry still is if another had been pushed after it by then, and else
      one of the same location and start, since only the last entry may still get another end. */
  ghost predicate Carries(log: seq<TaskTiming>, r: Report) {
    && r.index < r.total <= |log| && Completes(r.timing, log[r.index])
    && (r.index + 1 < r.total ==> r.timing == log[r.index])
  }

  ghost predicate CarryEntries(r: Run) {
    forall rep <- r.reports :: Carries(r.log, rep)
  }

  /** Every entry before the cursor was reported, in log order and so once, or passed over when it was no longer in
      the ring; and every report carries its entry. */
  ghost predicate Accounted(r: Run, capacity: nat) {
    && r.cursor <= |r.log| && InLogOrder(r.reports, r.cursor) && Covered(r) && MissedWereEvicted(r, capacity)
    && CarryEntries(r)
  }

  lemma {:induction false} PushKeepsEntries(r: Run, t: TaskTiming)
    requires CarryEntries(r)
    ensures CarryEntries(r.(log := Logged(r.log, t)))
  {
    forall rep | rep in r.reports ensures Carries(Logged(r.log, t), rep) {
      assert Carries(r.log, rep);
    }
  }

  /** What a poll adds carries the log entries as they are at that poll. */
  lemma {:induction false} PollReportsEntries(r: Run, capacity: nat, k: nat)
    requires capacity > 0 && r.cursor <= |r.log| && |r.reports| <= k < |After(r, capacity, Poll).reports|
    ensures var rep := After(r, capacity, Poll).reports[k];
            rep.index < rep.total == |r.log| && rep.timing == r.log[rep.index]
  {
    var s := SnapshotOf(0, r.log, capacity);
    PollReportsRange(r.log, r.cursor, capacity);
    ReportAt(r.log, First(r.cursor, s), Advanced(r.cursor, s), k - |r.reports|);
    assert After(r, capacity, Poll).reports[k]
        == ReportsFrom(First(r.cursor, s), Reported(r.cursor, s), |r.log|)[k - |r.reports|];
  }

  lemma {:induction false} ReportAt(log: seq<TaskTiming>, first: nat, next: nat, i: nat)
    requires first <= next <= |log| && i < next - first
    ensures ReportsFrom(first, log[first..next], |log|)[i] == Report(first + i, log[first + i], |log|)
  {
  }


  lemma {:induction false} ReportsGrow(reports: seq<Report>, cursor: nat, first: nat, log: seq<TaskTiming>, next: nat)
    requires InLogOrder(reports, cursor) && cursor <= first <= next <= |log|
    ensures var more := reports + ReportsFrom(first, log[first..next], |log|);
            && InLogOrder(more, next)
            && (forall i: nat :: IsReported(more, i) <==> IsReported(reports, i) || first <= i < next)
  {
    var added := ReportsFrom(first, log[first..next], |log|);
    var more := reports + added;
    forall i: nat | first <= i < next ensures IsReported(more, i) {
      assert more[|reports| + i - first].index == i;
    }
    forall i: nat | IsReported(reports, i) ensures IsReported(more, i) {
      var r :| r in reports && r.index == i;
      assert r in more;
    }
  }

  lemma {:induction false} PollCarriesEntries(r: Run, capacity: nat)
    requires capacity > 0 && r.cursor <= |r.log| && CarryEntries(r)
    ensures CarryEntries(After(r, capacity, Poll))
  {
    var n := After(r, capacity, Poll);
    forall rep | rep in n.reports ensures Carries(n.log, rep) {
      if rep !in r.reports {
        var k :| 0 <= k < |n.reports| && n.reports[k] == rep;
        PollReportsEntries(r, capacity, k);
      }
    }
  }

  lemma {:induction false} PollCovers(r: Run, capacity: nat)
    requires capacity > 0 && r.cursor <= |r.log| && InLogOrder(r.reports, r.cursor) && Covered(r)
    ensures Covered(After(r, capacity, Poll))
  {
    var s := SnapshotOf(0, r.log, capacity);
    var first, next := First(r.cursor, s), Advanced(r.cursor, s);
    var n := After(r, capacity, Poll);
    PollReportsRange(r.log, r.cursor, capacity);
    ReportsGrow(r.reports, r.cursor, first, r.log, next);
    forall i: nat | i < n.cursor ensures IsReported(n.reports, i) || IsMissed(n.missed, i) {
      if i < r.cursor {
        if IsMissed(r.missed, i) {
          var m :| m in r.missed && m.index == i;
          assert m in n.missed;
        }
      } else if i < first {
        assert n.missed[|r.missed| + i - r.cursor].index == i;
      }
    }
  }

  lemma {:induction false} PollMissesEvicted(r: Run, capacity: nat)
    requires capacity > 0 && r.cursor <= |r.log| && InLogOrder(r.reports, r.cursor) && MissedWereEvicted(r, capacity)
    ensures MissedWereEvicted(After(r, capacity, Poll), capacity)
  {
    var s := SnapshotOf(0, r.log, capacity);
    var first, next := First(r.cursor, s), Advanced(r.cursor, s);
    var n := After(r, capacity, Poll);
    PollReportsRange(r.log, r.cursor, capacity);
    ReportsGrow(r.reports, r.cursor, first, r.log, next);
    forall m | m in n.missed
      ensures m.index < n.cursor && m.index < Evicted(m.total, capacity) && m.total <= |n.log|
      ensures !IsReported(n.reports, m.index)
    {
      if m !in r.missed {
        assert m in MissedFrom(r.cursor, first, |r.log|);
        assert !IsReported(r.reports, m.index);
      }
    }
  }

  lemma {:induction false} PollAccounts(r: Run, capacity: nat)
    requires capacity > 0 && Accounted(r, capacity)
    ensures Accounted(After(r, capacity, Poll), capacity)
  {
    var s := SnapshotOf(0, r.log, capacity);
    PollReportsRange(r.log, r.cursor, capacity);
    ReportsGrow(r.reports, r.cursor, First(r.cursor, s), r.log, Advanced(r.cursor, s));
    PollCovers(r, capacity);
    PollMissesEvicted(r, capacity);
    PollCarriesEntries(r, capacity);
  }

  lemma {:induction false} RunsAreAccounted(r: Run, capacity: nat, events: seq<Event>)
    requires capacity > 0 && Accounted(r, capacity)
    ensures Accounted(Outcome(r, capacity, events), capacity)
    decreases |events|
  {
    if events != [] {
      if events[0].Poll? {
        PollAccounts(r, capacity);
      } else {
        PushKeepsEntries(r, events[0].timing);
      }
      RunsAreAccounted(After(r, capacity, events[0]), capacity, events[1..]);
    }
  }

  // ----- many threads -----

  /** A timing pushed by some thread, or a poll of some threads. */
  datatype GlobalEvent = PushTo(thread: nat, timing: TaskTiming) | PollAll(threads: seq<nat>)

  datatype Global = Global(logs: map<nat, seq<TaskTiming>>, cursors: map<nat, nat>, deltas: seq<Delta>)

  function LogOf(logs: map<nat, seq<TaskTiming>>, thread: nat): seq<TaskTiming> {
    if thread in logs then logs[thread] else []
  }

  function Snapshots(logs: map<nat, seq<TaskTiming>>, capacity: nat, threads: seq<nat>): seq<Snapshot> {
    seq(|threads|, i requires 0 <= i < |threads| => SnapshotOf(threads[i], LogOf(logs, threads[i]), capacity))
  }

  function GlobalAfter(g: Global, capacity: nat, e: GlobalEvent): Global {
    match e
    case PushTo(thread, t) => g.(logs := g.logs[thread := Logged(LogOf(g.logs, thread), t)])
    case PollAll(threads) =>
      var all := Snapshots(g.logs, capacity, threads);
      Global(g.logs, CursorsAfter(g.cursors, all), g.deltas + Deltas(g.cursors, all))
  }

  function GlobalOutcome(g: Global, capacity: nat, events: seq<GlobalEvent>): Global
    decreases |events|
  {
    if events == [] then g else GlobalOutcome(GlobalAfter(g, capacity, events[0]), capacity, events[1..])
  }

  /** No thread is polled twice at once. */
  predicate PollsApart(e: GlobalEvent) {
    e.PollAll? ==> forall i, j :: 0 <= i < j < |e.threads| ==> e.threads[i] != e.threads[j]
  }

  /** What happens to one thread. */
  function Seen(thread: nat, e: GlobalEvent): seq<Event> {
    match e
    case PushTo(x, t) => if x == thread then [Push(t)] else []
    case PollAll(threads) => if thread in threads then [Poll] else []
  }

  function EventsOf(thread: nat, events: seq<GlobalEvent>): seq<Event>
    decreases |events|
  {
    if events == [] then [] else Seen(thread, events[0]) + EventsOf(thread, events[1..])
  }

  /** All timings of some deltas, in order. */
  function Timings(deltas: seq<Delta>): seq<TaskTiming>
    decreases |deltas|
  {
    if deltas == [] then [] else deltas[0].newTimings + Timings(deltas[1..])
  }

  function TimingsIn(reports: seq<Report>): seq<TaskTiming> {
    seq(|reports|, i requires 0 <= i < |reports| => reports[i].timing)
  }

  /** The run of one thread on its own has its log and cursor, and reports what the deltas of the thread do. */
  ghost predicate Follows(thread: nat, g: Global, r: Run) {
    && r.log == LogOf(g.logs, thread) && r.cursor == CursorOf(g.cursors, thread)
    && TimingsIn(r.reports) == Timings(DeltasOf(thread, g.deltas))
  }

  lemma {:induction false} DeltasAdd(thread: nat, a: seq<Delta>, b: seq<Delta>)
    ensures DeltasOf(thread, a + b) == DeltasOf(thread, a) + DeltasOf(thread, b)
    decreases |a|
  {
    if a == [] {
      assert a + b == b;
    } else {
      assert (a + b)[1..] == a[1..] + b;
      DeltasAdd(thread, a[1..], b);
    }
  }

  lemma {:induction false} TimingsAdd(a: seq<Delta>, b: seq<Delta>)
    ensures Timings(a + b) == Timings(a) + Timings(b)
    decreases |a|
  {
    if a == [] {
      assert a + b == b;
    } else {
      assert (a + b)[1..] == a[1..] + b;
      TimingsAdd(a[1..], b);
      assert a[0].newTimings + (Timings(a[1..]) + Timings(b)) == a[0].newTimings + Timings(a[1..]) + Timings(b);
    }
  }

  lemma {:induction false} OneDelta(d: Delta)
    ensures Timings([d]) == d.newTimings
  {
    assert Timings([d]) == d.newTimings + [];
  }

  lemma {:induction false} ReportsAdd(reports: seq<Report>, from: nat, timings: seq<TaskTiming>, total: nat)
    ensures TimingsIn(reports + ReportsFrom(from, timings, total)) == TimingsIn(reports) + timings
  {
  }

  /** What one poll adds to the reports of a thread is what its delta adds. */
  lemma {:induction false} DeltaIsReported(thread: nat, reports: seq<Report>, from: nat, unseen: seq<TaskTiming>,
                                           total: nat, before: seq<Delta>, added: seq<Delta>)
    requires TimingsIn(reports) == Timings(DeltasOf(thread, before))
    requires DeltasOf(thread, added) == if unseen == [] then [] else [Delta(thread, unseen)]
    ensures TimingsIn(reports + ReportsFrom(from, unseen, total)) == Timings(DeltasOf(thread, before + added))
  {
    DeltasAdd(thread, before, added);
    TimingsAdd(DeltasOf(thread, before), DeltasOf(thread, added));
    OneDelta(Delta(thread, unseen));
    ReportsAdd(reports, from, unseen, total);
  }

  lemma {:induction false} PolledOnce(logs: map<nat, seq<TaskTiming>>, capacity: nat, threads: seq<nat>, i: nat)
    requires PollsApart(PollAll(threads)) && i < |threads|
    ensures var all := Snapshots(logs, capacity, threads);
            && |all| == |threads| && all[i] == SnapshotOf(threads[i], LogOf(logs, threads[i]), capacity)
            && !IsPolled(threads[i], all[..i]) && !IsPolled(threads[i], all[i + 1..])
  {
    var all := Snapshots(logs, capacity, threads);
    forall k | 0 <= k < |all| ensures all[k].thread == threads[k] {}
  }

  lemma {:induction false} PolledFollows(thread: nat, g: Global, r: Run, capacity: nat, threads: seq<nat>)
    requires Follows(thread, g, r) && PollsApart(PollAll(threads)) && thread in threads
    ensures Follows(thread, GlobalAfter(g, capacity, PollAll(threads)), After(r, capacity, Poll))
  {
    var all := Snapshots(g.logs, capacity, threads);
    var i :| 0 <= i < |threads| && threads[i] == thread;
    var s := SnapshotOf(0, r.log, capacity);
    PolledOnce(g.logs, capacity, threads, i);
    PolledThreadsAreIndependent(g.cursors, all, i);
    assert all[i] == s.(thread := thread);
    SameForAnyThread(r.cursor, s, thread);
    DeltaIsReported(thread, r.reports, First(r.cursor, s), Reported(r.cursor, s), |r.log|, g.deltas,
                    Deltas(g.cursors, all));
  }

  lemma {:induction false} SameForAnyThread(cursor: nat, s: Snapshot, thread: nat)
    ensures Reported(cursor, s.(thread := thread)) == Reported(cursor, s)
    ensures Advanced(cursor, s.(thread := thread)) == Advanced(cursor, s)
  {
  }

  lemma {:induction false} UnpolledFollows(thread: nat, g: Global, r: Run, capacity: nat, threads: seq<nat>)
    requires Follows(thread, g, r) && thread !in threads
    ensures Follows(thread, GlobalAfter(g, capacity, PollAll(threads)), r)
  {
    var all := Snapshots(g.logs, capacity, threads);
    UnpolledThreadsKeep(g.cursors, all, thread);
    DeltasAdd(thread, g.deltas, Deltas(g.cursors, all));
    assert DeltasOf(thread, g.deltas) + [] == DeltasOf(thread, g.deltas);
  }

  lemma {:induction false} ThreadsFollow(thread: nat, g: Global, r: Run, capacity: nat, events: seq<GlobalEvent>)
    requires Follows(thread, g, r) && forall e <- events :: PollsApart(e)
    ensures Follows(thread, GlobalOutcome(g, capacity, events), Outcome(r, capacity, EventsOf(thread, events)))
    decreases |events|
  {
    if events != [] {
      var e := events[0];
      assert e in events && forall f <- events[1..] :: f in events;
      var seen := Seen(thread, e);
      var next := if seen == [] then r else After(r, capacity, seen[0]);
      if e.PollAll? {
        if thread in e.threads {
          PolledFollows(thread, g, r, capacity, e.threads);
        } else {
          UnpolledFollows(thread, g, r, capacity, e.threads);
        }
      }
      ThreadsFollow(thread, GlobalAfter(g, capacity, e), next, capacity, events[1..]);
      OutcomeSplits(r, capacity, seen, EventsOf(thread, events[1..]));
    }
  }

  lemma {:induction false} OutcomeSplits(r: Run, capacity: nat, seen: seq<Event>, rest: seq<Event>)
    requires |seen| <= 1
    ensures Outcome(r, capacity, seen + rest)
            == Outcome(if seen == [] then r else After(r, capacity, seen[0]), capacity, rest)
  {
    if seen == [] {
      assert seen + rest == rest;
    } else {
      assert (seen + rest)[0] == seen[0] && (seen + rest)[1..] == rest;
    }
  }

  /** What a thread pushed, in order. */
  function PushedTo(thread: nat, events: seq<GlobalEvent>): seq<TaskTiming>
    decreases |events|
  {
    if events == [] then []
    else
      var e := events[|events| - 1];
      var before := PushedTo(thread, events[..|events| - 1]);
      if e.PushTo? && e.thread == thread then before + [e.timing] else before
  }

  lemma {:induction false} OutcomeGrows(g: Global, capacity: nat, events: seq<GlobalEvent>, e: GlobalEvent)
    ensures GlobalOutcome(g, capacity, events + [e]) == GlobalAfter(GlobalOutcome(g, capacity, events), capacity, e)
    decreases |events|
  {
    var more := events + [e];
    if events == [] {
      assert more[1..] == [];
      assert GlobalOutcome(GlobalAfter(g, capacity, e), capacity, []) == GlobalAfter(g, capacity, e);
    } else {
      assert more[1..] == events[1..] + [e];
      OutcomeGrows(GlobalAfter(g, capacity, events[0]), capacity, events[1..], e);
    }
  }

  lemma {:induction false} LogIsOfPushes(capacity: nat, events: seq<GlobalEvent>, thread: nat)
    ensures LogOf(GlobalOutcome(Global(map[], map[], []), capacity, events).logs, thread)
            == LogOfPushes(PushedTo(thread, events))
    decreases |events|
  {
    if events != [] {
      var rest, e := events[..|events| - 1], events[|events| - 1];
      LogIsOfPushes(capacity, rest, thread);
      OutcomeGrows(Global(map[], map[], []), capacity, rest, e);
      assert rest + [e] == events;
      if e.PushTo? && e.thread == thread {
        var pushes := PushedTo(thread, rest);
        assert (pushes + [e.timing])[..|pushes|] == pushes;
      }
    }
  }

  /** Over any interleaving of threads that push timings, complete them in place and are polled in any company: the
      log of a thread holds exactly the timings it pushed that were not completed by the next one, each of these is
      reported at most once, in log order and carrying its entry, and one passed over had been evicted by then. */
  lemma {:induction false} EachTimingIsReportedOnce(capacity: nat, events: seq<GlobalEvent>, thread: nat)
    requires capacity > 0 && forall e <- events :: PollsApart(e)
    ensures var g := GlobalOutcome(Global(map[], map[], []), capacity, events);
            var r := Outcome(Run([], 0, [], []), capacity, EventsOf(thread, events));
            Follows(thread, g, r) && Accounted(r, capacity) && r.log == Finals(PushedTo(thread, events))
  {
    ThreadsFollow(thread, Global(map[], map[], []), Run([], 0, [], []), capacity, events);
    RunsAreAccounted(Run([], 0, [], []), capacity, EventsOf(thread, events));
    LogIsOfPushes(capacity, events, thread);
    LogHoldsFinals(PushedTo(thread, events));
  }
}

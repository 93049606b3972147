/** A frame around updates: phases bracketed by the flush guard, panics caught by the frame, and the update that
    cleans up after one. */
module UpdateFrames {
  import opened Wrappers
  import opened EffectQueue
  import opened Updates
  import opened OrderlyUpdates
  import F = Frames

  /** Refused: the window is not there. Caught: a phase panicked; `escaped` tells if the cleaning update did, too.
      IdlePanic: a callback of the closing idle drain panicked, which nothing catches. */
  datatype FrameResult = Refused | Completed | Caught(escaped: bool) | IdlePanic

  datatype FrameRan = FrameRan(world: World, result: FrameResult)

  /** Entry drain, body, exit drain. */
  function InPhase(w: World, phase: FramePhase, body: seq<Op>): Ran {
    var entry := Flush(w, [], Phase(phase));
    if entry.panicked then entry else ThenExit(Exec(entry.world, body), phase)
  }

  function ThenExit(r: Ran, phase: FramePhase): Ran {
    if r.panicked then r else Flush(r.world, [], PhasePost(phase))
  }

  function Raised(w: World): World {
    w.(flushing := true, guards := w.guards + 1)
  }

  /** The guard is put back as it was; a panic leaves it to whoever catches it. */
  function Lowered(was: bool, r: Ran): Ran {
    var out := r.world.(guards := r.world.guards - 1);
    if r.panicked then Ran(out, true) else Ran(out.(flushing := was), false)
  }

  /** A phase with the guard up. */
  function RunPhase(w: World, phase: FramePhase, body: seq<Op>): Ran {
    Lowered(w.flushing, InPhase(Raised(w), phase, body))
  }

  function RunPhases(w: World, bodies: seq<seq<Op>>, i: nat): Ran
    requires |bodies| == 7 && i <= 7
    decreases 7 - i
  {
    if i == 7 then Ran(w, false)
    else
      var r := RunPhase(w, F.PhaseAt(i), bodies[i]);
      if r.panicked then r else RunPhases(r.world, bodies, i + 1)
  }

  function AbortFrame(w: World): World {
    w.(flushing := false, pending := if w.pending > 0 then w.pending - 1 else w.pending)
  }

  function DrainIdle(w: World): FrameRan {
    var r := Lowered(w.flushing, Flush(Raised(w), [], Phase(FramePhase.Idle)));
    FrameRan(r.world, if r.panicked then IdlePanic else Completed)
  }

  /** `closed`: what window-closed observers do should the cleaning update find the window marked removed. */
  function RunFrame(w: World, handle: nat, bodies: seq<seq<Op>>, closed: seq<Op>): FrameRan
    requires |bodies| == 7
  {
    if handle !in w.slots || w.slots[handle].None? then FrameRan(w, Refused)
    else
      var r := RunPhases(w, bodies, 0);
      if !r.panicked then DrainIdle(r.world)
      else
        var c := Perform(AbortFrame(r.world), UpdateWindow(handle, [], false, closed));
        FrameRan(c.world, Caught(c.panicked))
  }

  // ----- what a frame restores -----

  /** Everything but the flush guard and the record of nesting. */
  ghost predicate Holds(w: World, r: World) {
    Good(r) && r.pending == w.pending && r.stack == w.stack && r.guards == w.guards && SameSlots(w, r)
  }

  lemma {:induction false} HoldsTwice(w: World, m: World, r: World)
    requires Holds(w, m) && Holds(m, r)
    ensures Holds(w, r)
  {
  }

  lemma {:induction false} LoweringHolds(w: World, r: Ran)
    requires Restores(Raised(w), r.world, 0, 1)
    ensures Holds(w, Lowered(w.flushing, r).world)
    ensures !r.panicked ==> Lowered(w.flushing, r).world.flushing == w.flushing
  {
  }

  lemma {:induction false} InPhaseRestores(w: World, phase: FramePhase, body: seq<Op>)
    requires Good(w)
    ensures Restores(w, InPhase(w, phase, body).world, 0, 1)
  {
    var entry := Flush(w, [], Phase(phase));
    FlushRestores(w, [], Phase(phase));
    if !entry.panicked {
      ThenExitRestores(w, entry.world, phase, body);
    }
  }

  lemma {:induction false} ThenExitRestores(w: World, m: World, phase: FramePhase, body: seq<Op>)
    requires Restores(w, m, 0, 1)
    ensures Restores(w, ThenExit(Exec(m, body), phase).world, 0, 1)
  {
    var r := Exec(m, body);
    ExecRestores(m, body);
    RestoresTwice(w, m, r.world, 0, 1);
    if !r.panicked {
      FlushRestores(r.world, [], PhasePost(phase));
      RestoresTwice(w, r.world, ThenExit(r, phase).world, 0, 1);
    }
  }

  lemma {:induction false} PhaseHolds(w: World, phase: FramePhase, body: seq<Op>)
    requires Good(w)
    ensures Holds(w, RunPhase(w, phase, body).world)
    ensures !RunPhase(w, phase, body).panicked ==> RunPhase(w, phase, body).world.flushing == w.flushing
  {
    InPhaseRestores(Raised(w), phase, body);
    LoweringHolds(w, InPhase(Raised(w), phase, body));
  }

  lemma {:induction false} PhasesHold(w: World, bodies: seq<seq<Op>>, i: nat)
    requires Good(w) && |bodies| == 7 && i <= 7
    ensures Holds(w, RunPhases(w, bodies, i).world)
    ensures !RunPhases(w, bodies, i).panicked ==> RunPhases(w, bodies, i).world.flushing == w.flushing
    decreases 7 - i
  {
    if i < 7 {
      var r := RunPhase(w, F.PhaseAt(i), bodies[i]);
      PhaseHolds(w, F.PhaseAt(i), bodies[i]);
      if !r.panicked {
        PhasesHold(r.world, bodies, i + 1);
        HoldsTwice(w, r.world, RunPhases(r.world, bodies, i + 1).world);
      }
    }
  }

  lemma {:induction false} IdleHolds(w: World)
    requires Good(w)
    ensures Holds(w, DrainIdle(w).world)
  {
    FlushRestores(Raised(w), [], Phase(FramePhase.Idle));
    LoweringHolds(w, Flush(Raised(w), [], Phase(FramePhase.Idle)));
  }

  /** Whatever its phases do, a frame restores the stack, the slots and, unless a phase panicked, the counter; a frame
      that completes restores the flush guard as well. */
  lemma {:induction false} FrameRestores(w: World, handle: nat, bodies: seq<seq<Op>>, closed: seq<Op>)
    requires Good(w) && |bodies| == 7
    ensures var f := RunFrame(w, handle, bodies, closed);
            && Good(f.world) && f.world.stack == w.stack && f.world.guards == w.guards && SameSlots(w, f.world)
            && (f.result == Completed ==> f.world.flushing == w.flushing)
            && (!f.result.Caught? ==> f.world.pending == w.pending)
            && (f.result.Caught? ==> !f.world.flushing
                                     && f.world.pending == if w.pending > 0 then w.pending - 1 else 0)
  {
    if handle in w.slots && w.slots[handle].Some? {
      var r := RunPhases(w, bodies, 0);
      PhasesHold(w, bodies, 0);
      if !r.panicked {
        IdleHolds(r.world);
        HoldsTwice(w, r.world, DrainIdle(r.world).world);
      } else {
        var aborted := AbortFrame(r.world);
        PerformRestores(aborted, UpdateWindow(handle, [], false, closed));
      }
    }
  }

  /** A frame whose phase panicked is balanced exactly when no update was under way when it began: the phases'
      own updates have already given back what they took. */
  lemma {:induction false} PanickedFrameIsBalancedIff(w: World, handle: nat, bodies: seq<seq<Op>>, closed: seq<Op>)
    requires Good(w) && |bodies| == 7 && RunFrame(w, handle, bodies, closed).result.Caught?
    ensures RunFrame(w, handle, bodies, closed).world.pending == w.pending <==> w.pending == 0
  {
    FrameRestores(w, handle, bodies, closed);
  }

  lemma {:induction false} BarePanicEndsPhase(w: World, phase: FramePhase)
    requires w.queue == []
    ensures RunPhase(w, phase, [Panic]).panicked
  {
    var g := Raised(w);
    assert Flush(g, [], Phase(phase)) == Ran(g, false);
    assert Exec(g, [Panic]) == Ran(g, true);
  }

  /** A frame begun inside one update whose first phase body panics: it takes the counter to zero, and the finish of
      the update around it takes it below. */
  lemma {:induction false} PanickedFrameInUpdateUnderflows(w: World, handle: nat, bodies: seq<seq<Op>>,
                                                           closed: seq<Op>)
    requires Good(w) && w.pending == 1 && w.queue == [] && handle in w.slots && w.slots[handle].Some?
    requires |bodies| == 7 && bodies[0] == [Panic]
    ensures var f := RunFrame(w, handle, bodies, closed);
            f.result.Caught? && f.world.pending == 0 && Finish(f.world).world.pending == -1
  {
    BarePanicEndsPhase(w, F.PhaseAt(0));
    FrameRestores(w, handle, bodies, closed);
    assert RunPhases(w, bodies, 0) == RunPhase(w, F.PhaseAt(0), bodies[0]);
  }

  lemma {:induction false} CleaningEmptiesTheQueue(w: World, handle: nat, closed: seq<Op>)
    requires Good(w) && w.pending == 0 && !w.flushing && handle !in w.stack
    ensures var c := Perform(w, UpdateWindow(handle, [], false, closed)); !c.panicked ==> c.world.queue == []
  {
    var inner := InWindow(w.(pending := 1), handle, [], false, closed);
    InWindowRestores(w.(pending := 1), handle, [], false, closed);
    assert Conclude(inner) == Perform(w, UpdateWindow(handle, [], false, closed));
    if !inner.panicked {
      OutermostUpdatesEmptyTheQueue(w, inner);
    }
  }

  /** In a frame begun with at most one update under way the update that cleans up after a panic is an outermost one:
      it runs every callback still queued, whatever its placement, rather than leave them to the next frame. */
  lemma {:induction false} PanickedFrameEmptiesTheQueue(w: World, handle: nat, bodies: seq<seq<Op>>, closed: seq<Op>)
    requires Good(w) && |bodies| == 7 && w.pending <= 1
    requires RunFrame(w, handle, bodies, closed).result == Caught(false)
    ensures RunFrame(w, handle, bodies, closed).world.queue == []
  {
    var r := RunPhases(w, bodies, 0);
    PhasesHold(w, bodies, 0);
    NotOnStack(w, handle);
    CleaningEmptiesTheQueue(AbortFrame(r.world), handle, closed);
  }

  lemma {:induction false} NotOnStack(w: World, handle: nat)
    requires Good(w) && handle in w.slots && w.slots[handle].Some?
    ensures handle !in w.stack
  {
    assert handle in w.stack ==> Taken(w.slots, handle);
  }

  /** In a frame begun with two updates under way or more, everything the panicked phase left queued stays queued. */
  lemma {:induction false} PanickedFrameKeepsTheQueue(w: World, handle: nat, bodies: seq<seq<Op>>, closed: seq<Op>)
    requires Good(w) && |bodies| == 7 && w.pending >= 2 && RunFrame(w, handle, bodies, closed).result.Caught?
    ensures RunPhases(w, bodies, 0).world.queue <= RunFrame(w, handle, bodies, closed).world.queue
    ensures closed == [] ==> RunFrame(w, handle, bodies, closed).result == Caught(false)
                             && RunFrame(w, handle, bodies, closed).world.queue == RunPhases(w, bodies, 0).world.queue
  {
    var aborted := AbortFrame(RunPhases(w, bodies, 0).world);
    PhasesHold(w, bodies, 0);
    NotOnStack(w, handle);
    PerformExtendsQueue(aborted, UpdateWindow(handle, [], false, closed));
    if closed == [] {
      QuietCleaning(aborted, handle);
    }
  }

  lemma {:induction false} QuietCleaning(w: World, handle: nat)
    requires Good(w) && w.pending >= 1 && handle !in w.stack
    ensures var c := Perform(w, UpdateWindow(handle, [], false, [])); !c.panicked && c.world.queue == w.queue
  {
    var started := w.(pending := w.pending + 1);
    var inner := InWindow(started, handle, [], false, []);
    InWindowRestores(started, handle, [], false, []);
    QuietWindow(started, handle);
    InnerEndKeepsQueue(inner);
    assert Conclude(inner) == Perform(w, UpdateWindow(handle, [], false, []));
  }

  lemma {:induction false} QuietWindow(w: World, id: nat)
    ensures var r := InWindow(w, id, [], false, []); !r.panicked && r.world.queue == w.queue
  {
    if id in w.slots && w.slots[id].Some? {
      var inside := w.(slots := w.slots[id := None], stack := w.stack + [id]);
      assert Exec(inside, []) == Ran(inside, false);
    }
  }

  lemma {:induction false} LegacyFlushLightens(w: World)
    requires w.queue != []
    ensures Load(Flush(w, [], Legacy).world.queue) < Load(w.queue)
  {
    var r := Exec(w.(queue := w.queue[1..]), w.queue[0].callback);
    assert Load(r.world.queue) < Load(w.queue);
  }

  lemma {:induction false} PrefixIsLighter(a: seq<Deferred>, b: seq<Deferred>)
    requires a <= b
    ensures Load(a) <= Load(b)
  {
    assert b == a + b[|a|..];
    LoadAdds(a, b[|a|..]);
  }

  lemma {:induction false} OutermostEndLightens(r: Ran)
    requires !r.panicked && !r.world.flushing && r.world.pending == 1 && r.world.queue != []
    ensures Load(Conclude(r).world.queue) < Load(r.world.queue)
  {
    var m := r.world;
    LegacyFlushLightens(m.(flushing := true, guards := m.guards + 1, nested := m.nested || m.guards > 0));
  }

  /** The cleaning update from `w` once its closure has ended: the window put back or its closing observed. */
  function Cleaned(w: World, handle: nat, closed: seq<Op>): Ran {
    InWindow(w.(pending := w.pending + 1), handle, [], false, closed)
  }

  lemma {:induction false} CleaningKeepsQueueIff(w: World, handle: nat, closed: seq<Op>)
    requires Good(w) && !w.flushing && handle !in w.stack
    ensures var m, c := Cleaned(w, handle, closed), Perform(w, UpdateWindow(handle, [], false, closed));
            && w.queue <= m.world.queue
            && (m.world.queue <= c.world.queue <==> m.panicked || w.pending >= 1 || m.world.queue == [])
  {
    var m := Cleaned(w, handle, closed);
    InWindowExtendsQueue(w.(pending := w.pending + 1), handle, [], false, closed);
    InWindowRestores(w.(pending := w.pending + 1), handle, [], false, closed);
    assert Conclude(m) == Perform(w, UpdateWindow(handle, [], false, closed));
    EndKeepsQueueIff(m);
  }

  lemma {:induction false} EndKeepsQueueIff(m: Ran)
    requires m.world.pending >= 1 && !m.world.flushing
    ensures m.world.queue <= Conclude(m).world.queue <==> m.panicked || m.world.pending >= 2 || m.world.queue == []
  {
    if !m.panicked {
      if m.world.pending >= 2 {
        InnerEndKeepsQueue(m);
      } else if m.world.queue != [] {
        OutermostEndLightens(m);
        if m.world.queue <= Conclude(m).world.queue {
          PrefixIsLighter(m.world.queue, Conclude(m).world.queue);
        }
      }
    }
  }

  /** After a panicked frame, whatever its phases, the observers of a window it closes and queued callbacks do: what the
      phases left queued is at the front of the queue when the closure of the cleaning update ends, and that queue stays
      exactly when two updates or more were under way as the frame began, the observers panicked, or it is empty. */
  lemma {:induction false} PanickedFrameKeepsTheQueueIff(w: World, handle: nat, bodies: seq<seq<Op>>, closed: seq<Op>)
    requires Good(w) && |bodies| == 7 && RunFrame(w, handle, bodies, closed).result.Caught?
    ensures var left := RunPhases(w, bodies, 0).world;
            var m := Cleaned(AbortFrame(left), handle, closed);
            && left.queue <= m.world.queue
            && (m.world.queue <= RunFrame(w, handle, bodies, closed).world.queue
                <==> w.pending >= 2 || m.panicked || m.world.queue == [])
  {
    PhasesHold(w, bodies, 0);
    NotOnStack(w, handle);
    CleaningKeepsQueueIff(AbortFrame(RunPhases(w, bodies, 0).world), handle, closed);
  }

  lemma {:induction false} UnobservedIsQuiet(w: World, handle: nat)
    ensures !Cleaned(w, handle, []).panicked && Cleaned(w, handle, []).world.queue == w.queue
  {
    QuietWindow(w.(pending := w.pending + 1), handle);
  }

  lemma {:induction false} AbortKeepsQueue(w: World)
    ensures AbortFrame(w).queue == w.queue
  {
  }

  /** Where nothing observes that a window is closed, that queue is what the phases left, and the condition is on the
      counter alone. */
  lemma {:induction false} UnobservedFrameKeepsTheQueueIff(w: World, handle: nat, bodies: seq<seq<Op>>)
    requires Good(w) && |bodies| == 7 && RunFrame(w, handle, bodies, []).result.Caught?
    ensures RunPhases(w, bodies, 0).world.queue <= RunFrame(w, handle, bodies, []).world.queue
            <==> w.pending >= 2 || RunPhases(w, bodies, 0).world.queue == []
  {
    var left := RunPhases(w, bodies, 0).world;
    PanickedFrameKeepsTheQueueIff(w, handle, bodies, []);
    UnobservedIsQuiet(AbortFrame(left), handle);
    AbortKeepsQueue(left);
  }

  lemma {:induction false} QueuesThenPanics(w: World, phase: FramePhase)
    requires w.queue == []
    ensures RunPhase(w, phase, [Later(AtIdle, []), Panic])
            == Ran(Raised(w).(guards := w.guards, queue := [Deferred(AtIdle, [])]), true)
  {
    var g := Raised(w);
    var queued := g.(queue := [Deferred(AtIdle, [])]);
    var body := [Later(AtIdle, []), Panic];
    assert Flush(g, [], Phase(phase)) == Ran(g, false);
    assert Perform(g, body[0]) == Ran(queued, false);
    assert Exec(queued, [Panic]) == Ran(queued, true);
    assert body[1..] == [Panic];
    assert Exec(g, body) == Ran(queued, true);
  }

  lemma {:induction false} CleaningRunsOneCallback(w: World, handle: nat)
    requires w.pending == 0 && !w.flushing && w.queue == [Deferred(AtIdle, [])] && handle !in w.stack
    requires handle in w.slots && w.slots[handle] == Some(false)
    ensures var c := Perform(w, UpdateWindow(handle, [], false, [])); !c.panicked && c.world.queue == []
  {
    var started := w.(pending := 1);
    var inside := started.(slots := w.slots[handle := None], stack := w.stack + [handle]);
    assert Exec(inside, []) == Ran(inside, false);
    var inner := InWindow(started, handle, [], false, []);
    assert !inner.panicked && inner.world.queue == w.queue && inner.world.pending == 1 && !inner.world.flushing;
    OneCallbackEnds(inner);
    assert Conclude(inner) == Perform(w, UpdateWindow(handle, [], false, []));
  }

  lemma {:induction false} OneCallbackEnds(r: Ran)
    requires !r.panicked && !r.world.flushing && r.world.pending == 1 && r.world.queue == [Deferred(AtIdle, [])]
    ensures !Conclude(r).panicked && Conclude(r).world.queue == []
  {
    var m := r.world;
    var g := m.(flushing := true, guards := m.guards + 1, nested := m.nested || m.guards > 0);
    var popped := g.(queue := []);
    assert g.queue[1..] == [];
    assert Exec(popped, []) == Ran(popped, false);
    assert Flush(popped, [], Legacy) == Ran(popped, false);
    assert Flush(g, [], Legacy) == Ran(popped, false);
  }

  /** A frame that loses what it left: begun outside updates, its first phase queues an idle callback and panics, and
      the update that cleans up runs the callback at once. */
  lemma {:induction false} PanickedFrameRunsIdleCallback(w: World, handle: nat, bodies: seq<seq<Op>>)
    requires Good(w) && w.pending == 0 && w.queue == [] && handle in w.slots && w.slots[handle] == Some(false)
    requires |bodies| == 7 && bodies[0] == [Later(AtIdle, []), Panic]
    ensures RunPhases(w, bodies, 0).world.queue == [Deferred(AtIdle, [])]
    ensures RunFrame(w, handle, bodies, []).result == Caught(false)
    ensures RunFrame(w, handle, bodies, []).world.queue == []
  {
    QueuesThenPanics(w, F.PhaseAt(0));
    assert RunPhases(w, bodies, 0) == RunPhase(w, F.PhaseAt(0), bodies[0]);
    NotOnStack(w, handle);
    CleaningRunsOneCallback(AbortFrame(RunPhases(w, bodies, 0).world), handle);
  }

  // ----- flushes inside a frame -----

  predicate BodiesUncaught(bodies: seq<seq<Op>>) {
    forall body <- bodies :: AllUncaught(body)
  }

  lemma {:induction false} InPhaseKeepsShelter(w: World, phase: FramePhase, body: seq<Op>)
    requires Good(w) && Sheltered(w, 1) && AllUncaught(body)
    ensures KeepsShelter(w, InPhase(w, phase, body))
  {
    var entry := Flush(w, [], Phase(phase));
    FlushRestores(w, [], Phase(phase));
    FlushKeepsShelter(w, [], Phase(phase));
    if !entry.panicked {
      var r := Exec(entry.world, body);
      ExecRestores(entry.world, body);
      ExecKeepsShelter(entry.world, body);
      if !r.panicked {
        FlushKeepsShelter(r.world, [], PhasePost(phase));
      }
    }
  }

  lemma {:induction false} PhaseNeverNests(w: World, phase: FramePhase, body: seq<Op>)
    requires Good(w) && QueueUncaught(w.queue) && AllUncaught(body)
    ensures RunPhase(w, phase, body).world.nested == w.nested && QueueUncaught(RunPhase(w, phase, body).world.queue)
  {
    InPhaseKeepsShelter(Raised(w), phase, body);
  }

  lemma {:induction false} PhasesNeverNest(w: World, bodies: seq<seq<Op>>, i: nat)
    requires Good(w) && QueueUncaught(w.queue) && |bodies| == 7 && BodiesUncaught(bodies) && i <= 7
    ensures var r := RunPhases(w, bodies, i).world; r.nested == w.nested && QueueUncaught(r.queue)
    decreases 7 - i
  {
    if i < 7 {
      assert bodies[i] in bodies;
      PhaseNeverNests(w, F.PhaseAt(i), bodies[i]);
      PhaseHolds(w, F.PhaseAt(i), bodies[i]);
      if !RunPhase(w, F.PhaseAt(i), bodies[i]).panicked {
        PhasesNeverNest(RunPhase(w, F.PhaseAt(i), bodies[i]).world, bodies, i + 1);
      }
    }
  }

  /** Where no panic of an update is caught, no update inside a frame flushes on its own, in any phase or drain. */
  lemma {:induction false} FrameNeverNests(w: World, handle: nat, bodies: seq<seq<Op>>, closed: seq<Op>)
    requires Good(w) && QueueUncaught(w.queue) && |bodies| == 7 && BodiesUncaught(bodies)
    requires AllUncaught(closed) && w.guards == 0
    ensures RunFrame(w, handle, bodies, closed).world.nested == w.nested
  {
    if handle in w.slots && w.slots[handle].Some? {
      var r := RunPhases(w, bodies, 0);
      PhasesHold(w, bodies, 0);
      PhasesNeverNest(w, bodies, 0);
      if !r.panicked {
        IdleNeverNests(r.world);
      } else {
        CleaningNeverNests(AbortFrame(r.world), handle, closed);
      }
    }
  }

  lemma {:induction false} IdleNeverNests(w: World)
    requires Good(w) && QueueUncaught(w.queue)
    ensures DrainIdle(w).world.nested == w.nested
  {
    FlushKeepsShelter(Raised(w), [], Phase(FramePhase.Idle));
  }

  lemma {:induction false} CleaningNeverNests(w: World, handle: nat, closed: seq<Op>)
    requires Good(w) && w.guards == 0
    ensures Perform(w, UpdateWindow(handle, [], false, closed)).world.nested == w.nested
  {
    PerformRestores(w, UpdateWindow(handle, [], false, closed));
  }

  lemma {:induction false} PhasesInUpdateNeverNest(w: World, bodies: seq<seq<Op>>, i: nat)
    requires Good(w) && w.pending >= 1 && |bodies| == 7 && i <= 7
    ensures RunPhases(w, bodies, i).world.nested == w.nested
    decreases 7 - i
  {
    if i < 7 {
      var r := RunPhase(w, F.PhaseAt(i), bodies[i]);
      InPhaseRestores(Raised(w), F.PhaseAt(i), bodies[i]);
      PhaseHolds(w, F.PhaseAt(i), bodies[i]);
      if !r.panicked {
        PhasesInUpdateNeverNest(r.world, bodies, i + 1);
      }
    }
  }

  /** In a frame begun inside an update no code whatever makes a flush nest. */
  lemma {:induction false} FrameInUpdateNeverNests(w: World, handle: nat, bodies: seq<seq<Op>>, closed: seq<Op>)
    requires Good(w) && w.pending >= 1 && w.guards == 0 && |bodies| == 7
    ensures RunFrame(w, handle, bodies, closed).world.nested == w.nested
  {
    if handle in w.slots && w.slots[handle].Some? {
      var r := RunPhases(w, bodies, 0);
      PhasesHold(w, bodies, 0);
      PhasesInUpdateNeverNest(w, bodies, 0);
      if !r.panicked {
        FlushRestores(Raised(r.world), [], Phase(FramePhase.Idle));
      } else {
        CleaningNeverNests(AbortFrame(r.world), handle, closed);
      }
    }
  }

  lemma {:induction false} ExecSteps(w: World, op: Op, rest: seq<Op>, next: World)
    requires Perform(w, op) == Ran(next, false)
    ensures Exec(w, [op] + rest) == Exec(next, rest)
  {
    assert ([op] + rest)[0] == op && ([op] + rest)[1..] == rest;
  }

  lemma {:induction false} CaughtPanicClearsGuard(w: World)
    requires w.pending == 0
    ensures Perform(w, Catch([Update([Panic])])) == Ran(w.(flushing := false), false)
  {
    assert Exec(w.(pending := 1), [Panic]) == Ran(w.(pending := 1), true);
    assert Perform(w, Update([Panic])) == Ran(w.(flushing := false), true);
    assert Exec(w, [Update([Panic])]) == Ran(w.(flushing := false), true);
  }

  lemma {:induction false} EmptyUpdateFlushes(w: World, d: Deferred)
    requires w.pending == 0 && !w.flushing && w.queue == [d] && d.callback == []
    ensures Perform(w, Update([])) == Ran(w.(queue := [], nested := w.nested || w.guards > 0), false)
  {
    var started := w.(pending := 1);
    var inner := started.(flushing := true, guards := w.guards + 1, nested := w.nested || w.guards > 0);
    assert Exec(started, []) == Ran(started, false);
    assert Exec(inner.(queue := []), []) == Ran(inner.(queue := []), false);
    assert Flush(inner.(queue := []), [], Legacy) == Ran(inner.(queue := []), false);
    assert inner.queue[1..] == [];
    assert Flush(inner, [], Legacy) == Ran(inner.(queue := []), false);
    var done := w.(queue := [], nested := w.nested || w.guards > 0);
    assert Finish(started) == Ran(done, false);
    assert Conclude(Ran(started, false)) == Ran(done, false);
  }

  /** Queues a callback, catches the panic of an update and makes another update. */
  function NestingBody(): seq<Op> {
    [Later(AtIdle, [])] + ([Catch([Update([Panic])])] + ([Update([])] + []))
  }

  /** A phase body that catches the panic of an update of its own loses the flush guard: the next update it makes
      flushes every placement in the middle of the phase, here a callback meant for after the frame. */
  lemma {:induction false} CaughtPanicLetsAFlushNest(w: World, phase: FramePhase)
    requires w.pending == 0 && w.queue == [] && w.guards >= 0
    ensures RunPhase(w, phase, NestingBody()) == Ran(w.(nested := true), false)
  {
    var g := Raised(w);
    var queued := g.(queue := [Deferred(AtIdle, [])]);
    var unguarded := queued.(flushing := false);
    var done := unguarded.(queue := [], nested := true);
    assert Flush(g, [], Phase(phase)) == Ran(g, false);
    ExecSteps(g, Later(AtIdle, []), [Catch([Update([Panic])])] + ([Update([])] + []), queued);
    CaughtPanicClearsGuard(queued);
    ExecSteps(queued, Catch([Update([Panic])]), [Update([])] + [], unguarded);
    EmptyUpdateFlushes(unguarded, Deferred(AtIdle, []));
    ExecSteps(unguarded, Update([]), [], done);
    assert Exec(done, []) == Ran(done, false);
    assert Flush(done, [], PhasePost(phase)) == Ran(done, false);
  }

  lemma {:induction false} EmptyPhase(w: World, phase: FramePhase)
    requires w.queue == []
    ensures RunPhase(w, phase, []) == Ran(w, false)
  {
    var g := Raised(w);
    assert Flush(g, [], Phase(phase)) == Ran(g, false);
    assert Exec(g, []) == Ran(g, false);
    assert Flush(g, [], PhasePost(phase)) == Ran(g, false);
  }

  lemma {:induction false} EmptyPhases(w: World, bodies: seq<seq<Op>>, i: nat)
    requires w.queue == [] && |bodies| == 7 && i <= 7 && forall k | i <= k < 7 :: bodies[k] == []
    ensures RunPhases(w, bodies, i) == Ran(w, false)
    decreases 7 - i
  {
    if i < 7 {
      EmptyPhase(w, F.PhaseAt(i));
      EmptyPhases(w, bodies, i + 1);
    }
  }

  lemma {:induction false} EmptyIdle(w: World)
    requires w.queue == []
    ensures DrainIdle(w) == FrameRan(w, Completed)
  {
    var g := Raised(w);
    assert Flush(g, [], Phase(FramePhase.Idle)) == Ran(g, false);
  }

  /** Outside any update a frame with that body in its first phase has a nested flush. */
  lemma {:induction false} FrameOutsideUpdatesMayNest(w: World, handle: nat, bodies: seq<seq<Op>>)
    requires w.pending == 0 && w.queue == [] && w.guards == 0 && handle in w.slots && w.slots[handle].Some?
    requires |bodies| == 7 && bodies[0] == NestingBody() && forall k | 1 <= k < 7 :: bodies[k] == []
    ensures RunFrame(w, handle, bodies, []) == FrameRan(w.(nested := true), Completed)
  {
    CaughtPanicLetsAFlushNest(w, F.PhaseAt(0));
    EmptyPhases(w.(nested := true), bodies, 1);
    EmptyIdle(w.(nested := true));
    assert RunPhases(w, bodies, 0) == Ran(w.(nested := true), false);
  }

  ghost predicate NestsWith(w: World, handle: nat, queue: seq<Deferred>, bodies: seq<seq<Op>>, closed: seq<Op>)
    requires |bodies| == 7
  {
    RunFrame(w.(queue := queue), handle, bodies, closed).world.nested
  }

  /** Some code, queued before or run by the frame, makes a flush nest in it. */
  ghost predicate CodeCanNest(w: World, handle: nat) {
    exists queue, bodies, closed :: |bodies| == 7 && NestsWith(w, handle, queue, bodies, closed)
  }

  /** No code can make a flush nest in a frame exactly when the frame begins inside an update. */
  lemma {:induction false} NoCodeNestsIff(w: World, handle: nat)
    requires Good(w) && w.guards == 0 && !w.nested && handle in w.slots && w.slots[handle].Some?
    ensures !CodeCanNest(w, handle) <==> w.pending >= 1
  {
    if w.pending >= 1 {
      forall queue, bodies, closed | |bodies| == 7 ensures !NestsWith(w, handle, queue, bodies, closed) {
        FrameInUpdateNeverNests(w.(queue := queue), handle, bodies, closed);
      }
    } else {
      var bodies: seq<seq<Op>> := [NestingBody(), [], [], [], [], [], []];
      FrameOutsideUpdatesMayNest(w.(queue := []), handle, bodies);
      assert NestsWith(w, handle, [], bodies, []);
    }
  }

  // ----- the guard after a panic in the idle drain -----

  /** After a panic in the closing idle drain, which nothing catches, the flush guard is up exactly when every update
      the drain's callbacks made ended normally, whatever they caught: an update that panics clears it. */
  lemma {:induction false} IdlePanicKeepsGuardIff(w: World, handle: nat, bodies: seq<seq<Op>>, closed: seq<Op>)
    requires |bodies| == 7 && RunFrame(w, handle, bodies, closed).result == IdlePanic
    ensures RunFrame(w, handle, bodies, closed).world.flushing
            <==> FlushOrderly(Raised(RunPhases(w, bodies, 0).world), Phase(FramePhase.Idle))
  {
    FlushKeepsGuardIff(Raised(RunPhases(w, bodies, 0).world), [], Phase(FramePhase.Idle));
  }

  /** Where no panic of an update is caught, that is when the panic comes from outside any update of the callback. */
  lemma {:induction false} UncaughtIdlePanicKeepsGuardIff(w: World, handle: nat, bodies: seq<seq<Op>>,
                                                          closed: seq<Op>)
    requires Good(w) && QueueUncaught(w.queue) && |bodies| == 7 && BodiesUncaught(bodies)
    requires RunFrame(w, handle, bodies, closed).result == IdlePanic
    ensures RunFrame(w, handle, bodies, closed).world.flushing
            <==> DrainEscapesBare(Raised(RunPhases(w, bodies, 0).world), Phase(FramePhase.Idle))
  {
    PhasesHold(w, bodies, 0);
    PhasesNeverNest(w, bodies, 0);
    PanickedDrainKeepsGuardIff(Raised(RunPhases(w, bodies, 0).world), [], Phase(FramePhase.Idle));
  }

  predicate OneIdlePanic(w: World) {
    w.queue == [Deferred(AtIdle, [Panic])]
  }

  lemma {:induction false} WaitsForIdle(w: World, scope: FlushScope)
    requires OneIdlePanic(w) && !scope.Admits(AtIdle)
    ensures Flush(w, [], scope) == Ran(w, false)
  {
    var popped := w.(queue := w.queue[1..]);
    assert Flush(popped, [w.queue[0]], scope) == Ran(popped.(queue := [w.queue[0]]), false);
  }

  lemma {:induction false} QuietPhase(w: World, phase: FramePhase)
    requires OneIdlePanic(w) && phase != FramePhase.Idle
    ensures RunPhase(w, phase, []) == Ran(w, false)
  {
    var g := Raised(w);
    WaitsForIdle(g, Phase(phase));
    WaitsForIdle(g, PhasePost(phase));
    assert Exec(g, []) == Ran(g, false);
  }

  lemma {:induction false} QuietPhases(w: World, bodies: seq<seq<Op>>, i: nat)
    requires OneIdlePanic(w) && |bodies| == 7 && (forall k | 0 <= k < 7 :: bodies[k] == []) && i <= 7
    ensures RunPhases(w, bodies, i) == Ran(w, false)
    decreases 7 - i
  {
    if i < 7 {
      QuietPhase(w, F.PhaseAt(i));
      QuietPhases(w, bodies, i + 1);
    }
  }

  lemma {:induction false} IdlePanics(w: World)
    requires OneIdlePanic(w)
    ensures DrainIdle(w).result == IdlePanic && DrainIdle(w).world.flushing
  {
    var g := Raised(w);
    var popped := g.(queue := g.queue[1..]);
    assert Perform(popped, Panic) == Ran(popped, true);
    assert Exec(popped, [Panic]) == Ran(popped, true);
    assert Flush(g, [], Phase(FramePhase.Idle)) == Ran(popped, true);
  }

  /** A frame whose only callback panics at once in the idle drain leaves the guard up. */
  lemma {:induction false} IdlePanicLeavesTheGuardUp(w: World, handle: nat, bodies: seq<seq<Op>>)
    requires OneIdlePanic(w) && handle in w.slots && w.slots[handle].Some?
    requires |bodies| == 7 && forall k | 0 <= k < 7 :: bodies[k] == []
    ensures RunFrame(w, handle, bodies, []).result == IdlePanic && RunFrame(w, handle, bodies, []).world.flushing
  {
    var r := RunPhases(w, bodies, 0);
    QuietPhases(w, bodies, 0);
    IdlePanics(w);
    assert RunFrame(w, handle, bodies, []) == DrainIdle(r.world);
  }

  /** A callback that panics in an update of its own in the idle drain leaves the guard down. */
  lemma {:induction false} IdlePanicInUpdateLeavesTheGuardDown(w: World)
    requires w.pending == 0 && w.queue == [Deferred(AtIdle, [Update([Panic])])]
    ensures DrainIdle(w).result == IdlePanic && !DrainIdle(w).world.flushing
  {
    var g := Raised(w);
    var popped := g.(queue := g.queue[1..]);
    assert Exec(popped.(pending := 1), [Panic]) == Ran(popped.(pending := 1), true);
    assert Perform(popped, Update([Panic])) == Ran(popped.(flushing := false), true);
    assert Exec(popped, [Update([Panic])]) == Ran(popped.(flushing := false), true);
    assert Flush(g, [], Phase(FramePhase.Idle)) == Ran(popped.(flushing := false), true);
  }
}

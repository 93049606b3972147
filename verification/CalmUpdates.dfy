/** Code without panics: every window it asks for, at once or from a callback, is opened exactly once, and callbacks
    run in the order they were queued in. */
module CalmUpdates {
  import opened Wrappers
  import opened EffectQueue
  import opened Updates
  import opened UpdateFrames
  import F = Frames

  /** Nothing panics. An update of a window may find the window gone, so it asks for no window. */
  predicate Calm(op: Op) {
    match op
    case Update(body) => AllCalm(body)
    case UpdateWindow(_, body, _, closed) =>
      AllCalm(body) && AllCalm(closed) && AskedByAll(body) == 0 && AskedByAll(closed) == 0
    case OpenWindow(prepare, _, build, draw) => AllCalm(prepare) && AllCalm(build) && AllCalm(draw)
    case Later(_, callback) => AllCalm(callback)
    case Panic => false
    case Catch(body) => AllCalm(body)
  }

  predicate AllCalm(ops: seq<Op>) {
    ops == [] || (Calm(ops[0]) && AllCalm(ops[1..]))
  }

  predicate QueueCalm(queue: seq<Deferred>) {
    forall d <- queue :: AllCalm(d.callback)
  }

  predicate NoneAdmitted(queue: seq<Deferred>, scope: FlushScope) {
    forall d <- queue :: !scope.Admits(d.placement)
  }

  /** How many windows the code asks for, callbacks included. A window that fails is neither built nor drawn. */
  function AskedBy(op: Op): nat {
    match op
    case Update(body) => AskedByAll(body)
    case UpdateWindow(_, body, _, closed) => AskedByAll(body) + AskedByAll(closed)
    case OpenWindow(prepare, fails, build, draw) =>
      1 + AskedByAll(prepare) + if fails then 0 else AskedByAll(build) + AskedByAll(draw)
    case Later(_, callback) => AskedByAll(callback)
    case Panic => 0
    case Catch(body) => AskedByAll(body)
  }

  function AskedByAll(ops: seq<Op>): nat {
    if ops == [] then 0 else AskedBy(ops[0]) + AskedByAll(ops[1..])
  }

  function AskedByQueue(queue: seq<Deferred>): nat {
    if queue == [] then 0 else AskedByAll(queue[0].callback) + AskedByQueue(queue[1..])
  }

  lemma {:induction false} AskedAdds(a: seq<Deferred>, b: seq<Deferred>)
    ensures AskedByQueue(a + b) == AskedByQueue(a) + AskedByQueue(b)
    decreases |a|
  {
    if a == [] {
      assert a + b == b;
    } else {
      assert (a + b)[1..] == a[1..] + b;
      AskedAdds(a[1..], b);
    }
  }

  lemma {:induction false} AskedByOne(d: Deferred)
    ensures AskedByQueue([d]) == AskedByAll(d.callback)
  {
    assert [d][1..] == [];
  }

  /** Windows opened so far, counted by the ids given out, and those still waiting in the queue. */
  function Windows(w: World): nat {
    w.nextId + AskedByQueue(w.queue)
  }

  /** The code ended normally and `asked` windows more were opened or wait in the queue. */
  predicate Serves(w: World, r: Ran, asked: nat) {
    !r.panicked && QueueCalm(r.world.queue) && Windows(r.world) == Windows(w) + asked
  }

  lemma {:induction false} ExecServes(w: World, ops: seq<Op>)
    requires Good(w) && QueueCalm(w.queue) && AllCalm(ops)
    ensures Serves(w, Exec(w, ops), AskedByAll(ops))
    decreases Load(w.queue) + SizeAll(ops), 4, |ops|
  {
    if ops != [] {
      var r := Perform(w, ops[0]);
      PerformServes(w, ops[0]);
      PerformRestores(w, ops[0]);
      ExecServes(r.world, ops[1..]);
    }
  }

  lemma {:induction false} PerformServes(w: World, op: Op)
    requires Good(w) && QueueCalm(w.queue) && Calm(op)
    ensures Serves(w, Perform(w, op), AskedBy(op))
    decreases Load(w.queue) + Size(op), 3, 0
  {
    var started := w.(pending := w.pending + 1);
    match op
    case Update(body) =>
      ExecServes(started, body);
      ExecRestores(started, body);
      ConcludeServes(w, Exec(started, body));
    case UpdateWindow(id, body, removes, closed) =>
      if id !in w.stack {
        UpdateWindowServes(started, id, body, removes, closed);
        InWindowRestores(started, id, body, removes, closed);
        ConcludeServes(w, InWindow(started, id, body, removes, closed));
      }
    case OpenWindow(prepare, fails, build, draw) =>
      OpeningServes(started, prepare, fails, build, draw);
      OpeningRestores(started, prepare, fails, build, draw);
      ConcludeServes(w, Opening(started, prepare, fails, build, draw));
    case Later(placement, callback) =>
      AskedAdds(w.queue, [Deferred(placement, callback)]);
      AskedByOne(Deferred(placement, callback));
    case Catch(body) => ExecServes(w, body);
  }

  lemma {:induction false} ConcludeServes(w: World, r: Ran)
    requires Good(w) && Restores(w.(pending := w.pending + 1), r.world, 0, 2)
    requires !r.panicked && QueueCalm(r.world.queue)
    ensures Serves(r.world, Conclude(r), 0)
    decreases Load(r.world.queue), 2, 0
  {
    var m := r.world;
    if !m.flushing && m.pending == 1 {
      FlushServes(m.(flushing := true, guards := m.guards + 1, nested := m.nested || m.guards > 0), [], Legacy);
    }
  }

  /** Nothing admitted is left, what was held back is in front, and every window asked for was opened or waits. */
  lemma {:induction false} FlushServes(w: World, carry: seq<Deferred>, scope: FlushScope)
    requires Good(w) && QueueCalm(w.queue) && QueueCalm(carry)
    requires NoneAdmitted(carry, scope)
    ensures Serves(w, Flush(w, carry, scope), AskedByQueue(carry))
    ensures carry <= Flush(w, carry, scope).world.queue
    ensures NoneAdmitted(Flush(w, carry, scope).world.queue, scope)
    decreases Load(w.queue), 0, 0
  {
    if w.queue != [] {
      var e := w.queue[0];
      var popped := w.(queue := w.queue[1..]);
      if !scope.Admits(e.placement) {
        AskedAdds(carry, [e]);
        AskedByOne(e);
        FlushServes(popped, carry + [e], scope);
      } else {
        var r := Exec(popped, e.callback);
        ExecServes(popped, e.callback);
        ExecRestores(popped, e.callback);
        FlushServes(r.world, carry, scope);
      }
    }
  }

  /** The update of a window that is there runs its body and, if the window was to be removed, the observers. */
  lemma {:induction false} InWindowServes(w: World, id: nat, body: seq<Op>, removes: bool, closed: seq<Op>)
    requires Good(w) && id !in w.stack && QueueCalm(w.queue) && AllCalm(body) && AllCalm(closed)
    requires id in w.slots && w.slots[id].Some?
    ensures Serves(w, InWindow(w, id, body, removes, closed),
                   AskedByAll(body) + if w.slots[id].value || removes then AskedByAll(closed) else 0)
    decreases Load(w.queue) + SizeAll(body) + SizeAll(closed), 5, 0
  {
    var inside := w.(slots := w.slots[id := None], stack := w.stack + [id]);
    var r := Exec(inside, body);
    DroppedIsGood(w, id, body);
    ExecServes(inside, body);
    if w.slots[id].value || removes {
      ExecServes(r.world.(stack := Truncate(r.world.stack, |w.stack|), slots := r.world.slots - {id}), closed);
    }
  }

  lemma {:induction false} UpdateWindowServes(w: World, id: nat, body: seq<Op>, removes: bool, closed: seq<Op>)
    requires Good(w) && id !in w.stack && QueueCalm(w.queue) && AllCalm(body) && AllCalm(closed)
    requires AskedByAll(body) == 0 && AskedByAll(closed) == 0
    ensures Serves(w, InWindow(w, id, body, removes, closed), 0)
    decreases Load(w.queue) + SizeAll(body) + SizeAll(closed), 6, 0
  {
    if id in w.slots && w.slots[id].Some? {
      InWindowServes(w, id, body, removes, closed);
    }
  }

  lemma {:induction false} OpeningServes(w: World, prepare: seq<Op>, fails: bool, build: seq<Op>, draw: seq<Op>)
    requires Good(w) && QueueCalm(w.queue) && AllCalm(prepare) && AllCalm(build) && AllCalm(draw)
    ensures Serves(w, Opening(w, prepare, fails, build, draw), AskedBy(OpenWindow(prepare, fails, build, draw)))
    decreases Load(w.queue) + SizeAll(prepare) + SizeAll(build) + SizeAll(draw), 6, 0
  {
    var id := w.nextId;
    var added := w.(slots := w.slots[id := None], nextId := id + 1);
    var r := Exec(added, prepare);
    NewSlot(w);
    ExecServes(added, prepare);
    if !fails {
      ExecRestores(added, prepare);
      assert Taken(added.slots, id);
      BuildingServes(added, r.world, id, build, draw);
    }
  }

  lemma {:induction false} BuildingServes(added: World, m: World, id: nat, build: seq<Op>, draw: seq<Op>)
    requires Good(added) && Taken(added.slots, id) && id !in added.stack && Restores(added, m, 0, 1)
    requires QueueCalm(m.queue) && AllCalm(build) && AllCalm(draw)
    ensures Serves(m, Building(m, id, build, draw), AskedByAll(build) + AskedByAll(draw))
    decreases Load(m.queue) + SizeAll(build) + SizeAll(draw), 5, 0
  {
    var b := Exec(m.(stack := m.stack + [id]), build);
    var back := b.world.(stack := Truncate(b.world.stack, |m.stack|));
    BuildRestores(added, m, id, build);
    ExecServes(m.(stack := m.stack + [id]), build);
    DrawRestores(added, back, draw);
    ExecServes(back, draw);
    assert Taken(added.slots, id);
  }

  /** Code run in an outermost update opens every window it asks for, and those that waited before. */
  lemma {:induction false} EveryWindowIsOpened(w: World, body: seq<Op>)
    requires Good(w) && w.pending == 0 && !w.flushing && QueueCalm(w.queue) && AllCalm(body)
    ensures var r := Perform(w, Update(body));
            && !r.panicked && r.world.queue == []
            && r.world.nextId == w.nextId + AskedByQueue(w.queue) + AskedByAll(body)
  {
    var started := w.(pending := 1);
    PerformServes(w, Update(body));
    ExecRestores(started, body);
    ExecServes(started, body);
    OutermostUpdatesEmptyTheQueue(w, Exec(started, body));
  }

  /** However opening ends the new window's slot is not left empty: the window is there, or the slot is gone. */
  lemma {:induction false} OpenedWindowIsThereIff(w: World, prepare: seq<Op>, fails: bool, build: seq<Op>,
                                                  draw: seq<Op>)
    requires Good(w)
    ensures var r := Opening(w, prepare, fails, build, draw);
            && (w.nextId in r.world.slots ==> r.world.slots[w.nextId] == Some(false))
            && (AllCalm(prepare) && AllCalm(build) && AllCalm(draw) && QueueCalm(w.queue) ==>
                  (w.nextId in r.world.slots <==> !fails))
            && (r.panicked || fails ==> w.nextId !in r.world.slots)
  {
    if AllCalm(prepare) && AllCalm(build) && AllCalm(draw) && QueueCalm(w.queue) {
      OpeningServes(w, prepare, fails, build, draw);
    }
  }

  /** A flush goes by the order of the queue: the first callback admitted runs next, those held back before it are
      kept in order, and those behind it come before what it queues. */
  lemma {:induction false} FlushRunsFirst(w: World, carry: seq<Deferred>, scope: FlushScope, held: seq<Deferred>,
                                          e: Deferred, rest: seq<Deferred>)
    requires Good(w) && w.queue == held + [e] + rest && NoneAdmitted(held, scope) && scope.Admits(e.placement)
    ensures var r := Exec(w.(queue := rest), e.callback);
            && Flush(w, carry, scope) == (if r.panicked then r else Flush(r.world, carry + held, scope))
            && (w.pending >= 1 ==> rest <= r.world.queue)
    decreases |held|
  {
    if held == [] {
      assert w.queue[1..] == rest && carry + held == carry;
    } else {
      assert w.queue[1..] == held[1..] + [e] + rest && (carry + [held[0]]) + held[1..] == carry + held;
      FlushRunsFirst(w.(queue := w.queue[1..]), carry + [held[0]], scope, held[1..], e, rest);
    }
    if w.pending >= 1 {
      ExecExtendsQueue(w.(queue := rest), e.callback);
    }
  }

  /** A flush that finds nothing more to run ends with all that was held back, in order. */
  lemma {:induction false} FlushKeepsHeld(w: World, carry: seq<Deferred>, scope: FlushScope)
    requires NoneAdmitted(w.queue, scope)
    ensures Flush(w, carry, scope) == Ran(w.(queue := carry + w.queue), false)
    decreases |w.queue|
  {
    if w.queue == [] {
      assert carry + w.queue == carry;
    } else {
      assert (carry + [w.queue[0]]) + w.queue[1..] == carry + w.queue;
      FlushKeepsHeld(w.(queue := w.queue[1..]), carry + [w.queue[0]], scope);
    }
  }

  // ----- frames -----

  function AskedByBodies(bodies: seq<seq<Op>>, i: nat): nat
    requires i <= |bodies|
    decreases |bodies| - i
  {
    if i == |bodies| then 0 else AskedByAll(bodies[i]) + AskedByBodies(bodies, i + 1)
  }

  predicate BodiesCalm(bodies: seq<seq<Op>>) {
    forall body <- bodies :: AllCalm(body)
  }

  lemma {:induction false} InPhaseServes(w: World, phase: FramePhase, body: seq<Op>)
    requires Good(w) && QueueCalm(w.queue) && AllCalm(body)
    ensures Serves(w, InPhase(w, phase, body), AskedByAll(body))
    ensures NoneAdmitted(InPhase(w, phase, body).world.queue, PhasePost(phase))
  {
    var entry := Flush(w, [], Phase(phase)).world;
    FlushServes(w, [], Phase(phase));
    FlushRestores(w, [], Phase(phase));
    ExecServes(entry, body);
    ExecRestores(entry, body);
    FlushServes(Exec(entry, body).world, [], PhasePost(phase));
  }

  lemma {:induction false} PhasesServe(w: World, bodies: seq<seq<Op>>, i: nat)
    requires Good(w) && QueueCalm(w.queue) && |bodies| == 7 && i <= 7 && BodiesCalm(bodies)
    ensures Serves(w, RunPhases(w, bodies, i), AskedByBodies(bodies, i))
    decreases 7 - i
  {
    if i < 7 {
      InPhaseServes(Raised(w), F.PhaseAt(i), bodies[i]);
      PhaseHolds(w, F.PhaseAt(i), bodies[i]);
      PhasesServe(RunPhase(w, F.PhaseAt(i), bodies[i]).world, bodies, i + 1);
    }
  }

  /** A frame of calm phases completes. Every window its phases and the callbacks asked for is opened, but for those
      asked for by callbacks that wait for a place in the next frame; only such callbacks are left. */
  lemma {:induction false} FrameServes(w: World, handle: nat, bodies: seq<seq<Op>>, closed: seq<Op>)
    requires Good(w) && QueueCalm(w.queue) && |bodies| == 7 && BodiesCalm(bodies)
    requires handle in w.slots && w.slots[handle].Some?
    ensures var r := RunFrame(w, handle, bodies, closed);
            && r.result == Completed && r.world.flushing == w.flushing
            && Windows(r.world) == Windows(w) + AskedByBodies(bodies, 0)
            && forall d <- r.world.queue :: d.placement == NextFrameStart || d.placement == AtPostFrame
  {
    var m := RunPhases(w, bodies, 0).world;
    PhasesServe(w, bodies, 0);
    PhasesHold(w, bodies, 0);
    FlushServes(Raised(m), [], Phase(FramePhase.Idle));
    var left := Flush(Raised(m), [], Phase(FramePhase.Idle)).world.queue;
    forall d <- left ensures d.placement == NextFrameStart || d.placement == AtPostFrame {
      assert !Phase(FramePhase.Idle).Admits(d.placement);
    }
  }
}

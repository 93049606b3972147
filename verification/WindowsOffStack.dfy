/** While effects are flushed no window is being updated: each window on the stack has an update around it that is
    not finished, and only the outermost update flushes. */
module WindowsOffStack {
  import opened Wrappers
  import opened EffectQueue
  import opened Updates
  import U = UpdateFrames
  import F = Frames

  /** Every flush the code sets off, at any depth, has no window on the stack when it runs a callback. */
  ghost predicate AllOff(w: World, ops: seq<Op>)
    decreases Load(w.queue) + SizeAll(ops), 4, |ops|
  {
    ops == [] ||
    var r := Perform(w, ops[0]);
    Off(w, ops[0]) && (r.panicked || AllOff(r.world, ops[1..]))
  }

  ghost predicate Off(w: World, op: Op)
    decreases Load(w.queue) + Size(op), 3, 0
  {
    var started := w.(pending := w.pending + 1);
    match op
    case Update(body) => AllOff(started, body) && EndOff(Exec(started, body))
    case UpdateWindow(id, body, removes, closed) =>
      id in w.stack || (&& WindowOff(started, id, body, removes, closed)
                        && EndOff(InWindow(started, id, body, removes, closed)))
    case OpenWindow(prepare, fails, build, draw) =>
      OpeningOff(started, prepare, fails, build, draw) && EndOff(Opening(started, prepare, fails, build, draw))
    case Catch(body) => AllOff(w, body)
    case _ => true
  }

  ghost predicate WindowOff(w: World, id: nat, body: seq<Op>, removes: bool, closed: seq<Op>)
    decreases Load(w.queue) + SizeAll(body) + SizeAll(closed), 5, 0
  {
    id !in w.slots || w.slots[id].None? ||
    var inside := w.(slots := w.slots[id := None], stack := w.stack + [id]);
    var r := Exec(inside, body);
    && AllOff(inside, body)
    && (r.panicked || !(w.slots[id].value || removes)
        || AllOff(r.world.(stack := Truncate(r.world.stack, |w.stack|), slots := r.world.slots - {id}), closed))
  }

  ghost predicate OpeningOff(w: World, prepare: seq<Op>, fails: bool, build: seq<Op>, draw: seq<Op>)
    decreases Load(w.queue) + SizeAll(prepare) + SizeAll(build) + SizeAll(draw), 6, 0
  {
    var added := w.(slots := w.slots[w.nextId := None], nextId := w.nextId + 1);
    var r := Exec(added, prepare);
    AllOff(added, prepare) && (r.panicked || fails || BuildingOff(r.world, w.nextId, build, draw))
  }

  ghost predicate BuildingOff(w: World, id: nat, build: seq<Op>, draw: seq<Op>)
    decreases Load(w.queue) + SizeAll(build) + SizeAll(draw), 5, 0
  {
    var inside := w.(stack := w.stack + [id]);
    var b := Exec(inside, build);
    AllOff(inside, build) && (b.panicked || AllOff(b.world.(stack := Truncate(b.world.stack, |w.stack|)), draw))
  }

  /** How an update ends: if its closure has ended normally and it flushes, windows are off the stack. */
  ghost predicate EndOff(r: Ran)
    decreases Load(r.world.queue), 2, 0
  {
    var w := r.world;
    !r.panicked && !w.flushing && w.pending == 1 ==>
      FlushOff(w.(flushing := true, guards := w.guards + 1, nested := w.nested || w.guards > 0), Legacy)
  }

  ghost predicate FlushOff(w: World, scope: FlushScope)
    decreases Load(w.queue), 0, 0
  {
    w.queue == [] ||
    var e, popped := w.queue[0], w.(queue := w.queue[1..]);
    if !scope.Admits(e.placement) then FlushOff(popped, scope)
    else
      var r := Exec(popped, e.callback);
      w.stack == [] && AllOff(popped, e.callback) && (r.panicked || FlushOff(r.world, scope))
  }

  /** Every window on the stack has an update around it. */
  ghost predicate Covered(w: World) {
    Good(w) && |w.stack| <= w.pending
  }

  lemma {:induction false} WindowsAreOff(w: World, ops: seq<Op>)
    requires Covered(w)
    ensures AllOff(w, ops)
    decreases Load(w.queue) + SizeAll(ops), 4, |ops|
  {
    if ops != [] {
      var r := Perform(w, ops[0]);
      OpIsOff(w, ops[0]);
      PerformRestores(w, ops[0]);
      if !r.panicked {
        WindowsAreOff(r.world, ops[1..]);
      }
    }
  }

  lemma {:induction false} OpIsOff(w: World, op: Op)
    requires Covered(w)
    ensures Off(w, op)
    decreases Load(w.queue) + Size(op), 3, 0
  {
    var started := w.(pending := w.pending + 1);
    match op
    case Update(body) =>
      WindowsAreOff(started, body);
      ExecRestores(started, body);
      EndIsOff(w, Exec(started, body));
    case UpdateWindow(id, body, removes, closed) =>
      if id !in w.stack {
        WindowIsOff(started, id, body, removes, closed);
        InWindowRestores(started, id, body, removes, closed);
        EndIsOff(w, InWindow(started, id, body, removes, closed));
      }
    case OpenWindow(prepare, fails, build, draw) =>
      OpeningIsOff(started, prepare, fails, build, draw);
      OpeningRestores(started, prepare, fails, build, draw);
      EndIsOff(w, Opening(started, prepare, fails, build, draw));
    case Catch(body) =>
      WindowsAreOff(w, body);
    case _ =>
  }

  lemma {:induction false} EndIsOff(w: World, r: Ran)
    requires Covered(w) && Restores(w.(pending := w.pending + 1), r.world, 0, 2)
    ensures EndOff(r)
    decreases Load(r.world.queue), 2, 0
  {
    var m := r.world;
    if !r.panicked && !m.flushing && m.pending == 1 {
      DrainIsOff(m.(flushing := true, guards := m.guards + 1, nested := m.nested || m.guards > 0), Legacy);
    }
  }

  lemma {:induction false} DrainIsOff(w: World, scope: FlushScope)
    requires Good(w) && w.stack == []
    ensures FlushOff(w, scope)
    decreases Load(w.queue), 0, 0
  {
    if w.queue != [] {
      var e, popped := w.queue[0], w.(queue := w.queue[1..]);
      if !scope.Admits(e.placement) {
        DrainIsOff(popped, scope);
      } else {
        var r := Exec(popped, e.callback);
        WindowsAreOff(popped, e.callback);
        ExecRestores(popped, e.callback);
        if !r.panicked {
          DrainIsOff(r.world, scope);
        }
      }
    }
  }

  lemma {:induction false} WindowIsOff(w: World, id: nat, body: seq<Op>, removes: bool, closed: seq<Op>)
    requires Good(w) && |w.stack| < w.pending && id !in w.stack
    ensures WindowOff(w, id, body, removes, closed)
    decreases Load(w.queue) + SizeAll(body) + SizeAll(closed), 5, 0
  {
    if id in w.slots && w.slots[id].Some? {
      var inside := w.(slots := w.slots[id := None], stack := w.stack + [id]);
      var r := Exec(inside, body);
      DroppedIsGood(w, id, body);
      BodyRestores(w, id, body, Some(false));
      WindowsAreOff(inside, body);
      if (w.slots[id].value || removes) && !r.panicked {
        WindowsAreOff(r.world.(stack := Truncate(r.world.stack, |w.stack|), slots := r.world.slots - {id}), closed);
      }
    }
  }

  lemma {:induction false} OpeningIsOff(w: World, prepare: seq<Op>, fails: bool, build: seq<Op>, draw: seq<Op>)
    requires Good(w) && |w.stack| < w.pending
    ensures OpeningOff(w, prepare, fails, build, draw)
    decreases Load(w.queue) + SizeAll(prepare) + SizeAll(build) + SizeAll(draw), 6, 0
  {
    var id := w.nextId;
    var added := w.(slots := w.slots[id := None], nextId := id + 1);
    var r := Exec(added, prepare);
    NewSlot(w);
    WindowsAreOff(added, prepare);
    if !r.panicked && !fails {
      ExecRestores(added, prepare);
      assert Taken(added.slots, id);
      BuildingIsOff(added, r.world, id, build, draw);
    }
  }

  lemma {:induction false} BuildingIsOff(added: World, m: World, id: nat, build: seq<Op>, draw: seq<Op>)
    requires Good(added) && Taken(added.slots, id) && id !in added.stack && Restores(added, m, 0, 1)
    requires |m.stack| < m.pending
    ensures BuildingOff(m, id, build, draw)
    decreases Load(m.queue) + SizeAll(build) + SizeAll(draw), 5, 0
  {
    var b := Exec(m.(stack := m.stack + [id]), build);
    BuildRestores(added, m, id, build);
    WindowsAreOff(m.(stack := m.stack + [id]), build);
    if !b.panicked {
      WindowsAreOff(b.world.(stack := Truncate(b.world.stack, |m.stack|)), draw);
    }
  }

  // ----- frames -----

  ghost predicate PhaseOff(w: World, phase: FramePhase, body: seq<Op>) {
    var entry := Flush(w, [], Phase(phase));
    && FlushOff(w, Phase(phase))
    && (entry.panicked ||
        var r := Exec(entry.world, body);
        AllOff(entry.world, body) && (r.panicked || FlushOff(r.world, PhasePost(phase))))
  }

  ghost predicate PhasesOff(w: World, bodies: seq<seq<Op>>, i: nat)
    requires |bodies| == 7 && i <= 7
    decreases 7 - i
  {
    i == 7 ||
    var r := U.RunPhase(w, F.PhaseAt(i), bodies[i]);
    PhaseOff(U.Raised(w), F.PhaseAt(i), bodies[i]) && (r.panicked || PhasesOff(r.world, bodies, i + 1))
  }

  lemma {:induction false} PhaseIsOff(w: World, phase: FramePhase, body: seq<Op>)
    requires Good(w) && w.stack == []
    ensures PhaseOff(w, phase, body)
  {
    var entry := Flush(w, [], Phase(phase));
    DrainIsOff(w, Phase(phase));
    FlushRestores(w, [], Phase(phase));
    if !entry.panicked {
      var r := Exec(entry.world, body);
      WindowsAreOff(entry.world, body);
      ExecRestores(entry.world, body);
      DrainIsOff(r.world, PhasePost(phase));
    }
  }

  lemma {:induction false} PhasesAreOff(w: World, bodies: seq<seq<Op>>, i: nat)
    requires Good(w) && w.stack == [] && |bodies| == 7 && i <= 7
    ensures PhasesOff(w, bodies, i)
    decreases 7 - i
  {
    if i < 7 {
      var r := U.RunPhase(w, F.PhaseAt(i), bodies[i]);
      PhaseIsOff(U.Raised(w), F.PhaseAt(i), bodies[i]);
      U.PhaseHolds(w, F.PhaseAt(i), bodies[i]);
      if !r.panicked {
        PhasesAreOff(r.world, bodies, i + 1);
      }
    }
  }

  /** No flush of the frame, in its phases, at its end or in the update that cleans up after a panic, runs a callback
      with a window on the stack. */
  ghost predicate FrameOff(w: World, handle: nat, bodies: seq<seq<Op>>, closed: seq<Op>)
    requires |bodies| == 7
  {
    handle !in w.slots || w.slots[handle].None? ||
    var r := U.RunPhases(w, bodies, 0);
    && PhasesOff(w, bodies, 0)
    && (if r.panicked then Off(U.AbortFrame(r.world), UpdateWindow(handle, [], false, closed))
        else FlushOff(U.Raised(r.world), Phase(FramePhase.Idle)))
  }

  lemma {:induction false} FrameIsOff(w: World, handle: nat, bodies: seq<seq<Op>>, closed: seq<Op>)
    requires Good(w) && w.stack == [] && |bodies| == 7
    ensures FrameOff(w, handle, bodies, closed)
  {
    var r := U.RunPhases(w, bodies, 0);
    PhasesAreOff(w, bodies, 0);
    U.PhasesHold(w, bodies, 0);
    if r.panicked {
      OpIsOff(U.AbortFrame(r.world), UpdateWindow(handle, [], false, closed));
    } else {
      DrainIsOff(U.Raised(r.world), Phase(FramePhase.Idle));
    }
  }

  /** A callback queued for the end of the update runs in the frame's first drain, windows on the stack or not. */
  lemma {:induction false} FrameFlushesAtOnce(w: World, bodies: seq<seq<Op>>)
    requires w.stack != [] && w.queue == [Deferred(EndOfUpdate, [])] && |bodies| == 7
    ensures !PhasesOff(w, bodies, 0)
  {
    assert !FlushOff(U.Raised(w), Phase(F.PhaseAt(0)));
  }

  ghost predicate OffWith(w: World, handle: nat, queue: seq<Deferred>, bodies: seq<seq<Op>>, closed: seq<Op>)
    requires |bodies| == 7
  {
    FrameOff(w.(queue := queue), handle, bodies, closed)
  }

  /** Whatever is queued before and run by the frame. */
  ghost predicate AlwaysOff(w: World, handle: nat) {
    forall queue, bodies, closed | |bodies| == 7 :: OffWith(w, handle, queue, bodies, closed)
  }

  /** For all code no flush of a frame has a window on the stack exactly when it begins outside window updates. */
  lemma {:induction false} FramesAreOffIff(w: World, handle: nat)
    requires Good(w) && handle in w.slots && w.slots[handle].Some?
    ensures AlwaysOff(w, handle) <==> w.stack == []
  {
    if w.stack == [] {
      forall queue, bodies, closed | |bodies| == 7 ensures OffWith(w, handle, queue, bodies, closed) {
        FrameIsOff(w.(queue := queue), handle, bodies, closed);
      }
    } else {
      var bodies: seq<seq<Op>> := [[], [], [], [], [], [], []];
      FrameFlushesAtOnce(w.(queue := [Deferred(EndOfUpdate, [])]), bodies);
      assert !OffWith(w, handle, [Deferred(EndOfUpdate, [])], bodies, []);
    }
  }
}

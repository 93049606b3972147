/** Updates as the application runs them, on its own fields: each method ends in the world the function of the same
    name gives, so what is proved of those functions holds here. */
module UpdateGuards {
  import opened Wrappers
  import opened EffectQueue
  import opened Updates
  import U = UpdateFrames
  import F = Frames

  class App {
    var pendingUpdates: int
    var flushingEffects: bool
    var windowUpdateStack: seq<nat>
    var windows: map<nat, Option<bool>>
    var nextWindowId: nat
    var pendingEffects: seq<Deferred>
    ghost var guards: int
    ghost var nested: bool

    ghost function Now(): World
      reads this
    {
      World(pendingUpdates, flushingEffects, windowUpdateStack, windows, nextWindowId, pendingEffects, guards, nested)
    }

    constructor ()
      ensures Now() == World(0, false, [], map[], 0, [], 0, false) && Good(Now())
    {
      pendingUpdates, flushingEffects, windowUpdateStack, windows := 0, false, [], map[];
      nextWindowId, pendingEffects, guards, nested := 0, [], 0, false;
    }

    /** Runs application code and tells whether it panicked. Counter, stack and taken windows are as before. */
    method RunCode(ops: seq<Op>) returns (panicked: bool)
      modifies this
      ensures Ran(Now(), panicked) == Exec(old(Now()), ops)
      ensures Good(old(Now())) ==> Restores(old(Now()), Now(), 0, 1)
      decreases Load(pendingEffects) + SizeAll(ops), 4, |ops|
    {
      if Good(Now()) { ExecRestores(Now(), ops); }
      if ops == [] { return false; }
      panicked := RunOp(ops[0]);
      if !panicked {
        panicked := RunCode(ops[1..]);
      }
    }

    method RunOp(op: Op) returns (panicked: bool)
      modifies this
      ensures Ran(Now(), panicked) == Perform(old(Now()), op)
      ensures Good(old(Now())) ==> Restores(old(Now()), Now(), 0, 1)
      decreases Load(pendingEffects) + Size(op), 3, 1
    {
      if Good(Now()) { PerformRestores(Now(), op); }
      panicked := RunByKind(op);
    }

    method RunByKind(op: Op) returns (panicked: bool)
      modifies this
      ensures Ran(Now(), panicked) == Perform(old(Now()), op)
      decreases Load(pendingEffects) + Size(op), 3, 0
    {
      match op
      case Update(body) =>
        StartUpdate();
        panicked := RunCode(body);
        panicked := ConcludeUpdate(panicked);
      case UpdateWindow(id, body, removes, closed) =>
        if id in windowUpdateStack { return false; }
        StartUpdate();
        panicked := UpdateTakenWindow(id, body, removes, closed);
        panicked := ConcludeUpdate(panicked);
      case OpenWindow(prepare, fails, build, draw) =>
        StartUpdate();
        panicked := InsertWindow(prepare, fails, build, draw);
        panicked := ConcludeUpdate(panicked);
      case Later(placement, callback) =>
        pendingEffects := pendingEffects + [Deferred(placement, callback)];
        return false;
      case Panic =>
        return true;
      case Catch(body) =>
        var _ := RunCode(body);
        return false;
    }

    method StartUpdate()
      modifies this`pendingUpdates
      ensures pendingUpdates == old(pendingUpdates) + 1
    {
      pendingUpdates := pendingUpdates + 1;
    }

    method AbortUpdateAfterPanic()
      modifies this`pendingUpdates, this`flushingEffects
      ensures Now() == Abort(old(Now()))
    {
      if pendingUpdates > 0 {
        pendingUpdates := pendingUpdates - 1;
      }
      flushingEffects := false;
    }

    method ConcludeUpdate(closurePanicked: bool) returns (panicked: bool)
      modifies this
      ensures Ran(Now(), panicked) == Conclude(Ran(old(Now()), closurePanicked))
      decreases Load(pendingEffects), 2, 0
    {
      panicked := closurePanicked;
      if !panicked {
        panicked := FinishUpdate();
      }
      if panicked {
        AbortUpdateAfterPanic();
      }
    }

    method FinishUpdate() returns (panicked: bool)
      modifies this
      ensures Ran(Now(), panicked) == Finish(old(Now()))
      decreases Load(pendingEffects), 1, 0
    {
      if !flushingEffects && pendingUpdates == 1 {
        flushingEffects := true;
        nested, guards := nested || guards > 0, guards + 1;
        panicked := FlushEffects(Legacy);
        guards := guards - 1;
        if panicked { return; }
        flushingEffects := false;
      }
      pendingUpdates := pendingUpdates - 1;
      panicked := false;
    }

    method FlushEffects(scope: FlushScope) returns (panicked: bool)
      modifies this
      ensures Ran(Now(), panicked) == Flush(old(Now()), [], scope)
      decreases Load(pendingEffects), 0, 0
    {
      var carry: seq<Deferred> := [];
      while pendingEffects != []
        invariant Flush(Now(), carry, scope) == Flush(old(Now()), [], scope)
        invariant Load(pendingEffects) <= Load(old(pendingEffects))
        decreases Load(pendingEffects)
      {
        var effect := pendingEffects[0];
        pendingEffects := pendingEffects[1..];
        if !scope.Admits(effect.placement) {
          carry := carry + [effect];
        } else {
          panicked := RunCode(effect.callback);
          if panicked { return; }
        }
      }
      pendingEffects := carry;
      panicked := false;
    }

    method UpdateTakenWindow(id: nat, body: seq<Op>, removes: bool, closed: seq<Op>) returns (panicked: bool)
      modifies this
      ensures Ran(Now(), panicked) == InWindow(old(Now()), id, body, removes, closed)
      decreases Load(pendingEffects) + SizeAll(body) + SizeAll(closed), 5, 0
    {
      if id !in windows || windows[id].None? { return false; }
      var removed := windows[id].value || removes;
      windows := windows[id := None];
      var stackLen := |windowUpdateStack|;
      windowUpdateStack := windowUpdateStack + [id];
      panicked := RunCode(body);
      windowUpdateStack := Truncate(windowUpdateStack, stackLen);
      if removed && !panicked {
        windows := windows - {id};
        panicked := RunCode(closed);
      } else if id in windows {
        windows := windows[id := Some(removed)];
      }
    }

    method InsertWindow(prepare: seq<Op>, fails: bool, build: seq<Op>, draw: seq<Op>) returns (panicked: bool)
      modifies this
      ensures Ran(Now(), panicked) == Opening(old(Now()), prepare, fails, build, draw)
      decreases Load(pendingEffects) + SizeAll(prepare) + SizeAll(build) + SizeAll(draw), 6, 0
    {
      var id := nextWindowId;
      windows, nextWindowId := windows[id := None], id + 1;
      panicked := RunCode(prepare);
      if panicked || fails {
        windows := windows - {id};
      } else {
        panicked := BuildWindow(id, build, draw);
      }
    }

    method BuildWindow(id: nat, build: seq<Op>, draw: seq<Op>) returns (panicked: bool)
      modifies this
      ensures Ran(Now(), panicked) == Building(old(Now()), id, build, draw)
      decreases Load(pendingEffects) + SizeAll(build) + SizeAll(draw), 5, 0
    {
      var stackLen := |windowUpdateStack|;
      windowUpdateStack := windowUpdateStack + [id];
      panicked := RunCode(build);
      windowUpdateStack := Truncate(windowUpdateStack, stackLen);
      if !panicked {
        panicked := RunCode(draw);
        if !panicked && id in windows {
          windows := windows[id := Some(false)];
          return;
        }
      }
      windows := windows - {id};
      panicked := true;
    }

    method DrainRunDrain(phase: FramePhase, body: seq<Op>) returns (panicked: bool)
      modifies this
      ensures Ran(Now(), panicked) == U.InPhase(old(Now()), phase, body)
    {
      panicked := FlushEffects(Phase(phase));
      if !panicked {
        panicked := RunCode(body);
        if !panicked {
          panicked := FlushEffects(PhasePost(phase));
        }
      }
    }

    method RaiseGuard() returns (was: bool)
      modifies this`flushingEffects, this`guards
      ensures was == old(flushingEffects) && Now() == U.Raised(old(Now()))
    {
      was := flushingEffects;
      flushingEffects, guards := true, guards + 1;
    }

    method LowerGuard(was: bool, panicked: bool)
      modifies this`flushingEffects, this`guards
      ensures Ran(Now(), panicked) == U.Lowered(was, Ran(old(Now()), panicked))
    {
      guards := guards - 1;
      if !panicked {
        flushingEffects := was;
      }
    }

    method RunPhase(phase: FramePhase, body: seq<Op>) returns (panicked: bool)
      modifies this
      ensures Ran(Now(), panicked) == U.RunPhase(old(Now()), phase, body)
    {
      var wasFlushing := RaiseGuard();
      panicked := DrainRunDrain(phase, body);
      LowerGuard(wasFlushing, panicked);
    }

    method RunPhases(bodies: seq<seq<Op>>) returns (panicked: bool)
      requires |bodies| == 7
      modifies this
      ensures Ran(Now(), panicked) == U.RunPhases(old(Now()), bodies, 0)
    {
      panicked := false;
      var i := 0;
      while i < 7 && !panicked
        invariant 0 <= i <= 7
        invariant (if panicked then Ran(Now(), true) else U.RunPhases(Now(), bodies, i))
                  == U.RunPhases(old(Now()), bodies, 0)
        decreases 7 - i
      {
        panicked := RunPhase(F.PhaseAt(i), bodies[i]);
        i := i + 1;
      }
    }

    method AbortFrameAfterPanic()
      modifies this`pendingUpdates, this`flushingEffects
      ensures Now() == U.AbortFrame(old(Now()))
    {
      flushingEffects := false;
      if pendingUpdates > 0 {
        pendingUpdates := pendingUpdates - 1;
      }
    }

    method CleanUpAfterPanic(handle: nat, closed: seq<Op>) returns (panicked: bool)
      modifies this
      ensures Ran(Now(), panicked) == Perform(U.AbortFrame(old(Now())), UpdateWindow(handle, [], false, closed))
    {
      AbortFrameAfterPanic();
      panicked := RunOp(UpdateWindow(handle, [], false, closed));
    }

    method DrainIdle() returns (panicked: bool)
      modifies this
      ensures U.FrameRan(Now(), if panicked then U.IdlePanic else U.Completed) == U.DrainIdle(old(Now()))
    {
      var wasFlushing := RaiseGuard();
      panicked := FlushEffects(Phase(FramePhase.Idle));
      LowerGuard(wasFlushing, panicked);
    }

    method RunFrame(handle: nat, bodies: seq<seq<Op>>, closed: seq<Op>) returns (result: U.FrameResult)
      requires |bodies| == 7
      modifies this
      ensures U.FrameRan(Now(), result) == U.RunFrame(old(Now()), handle, bodies, closed)
      ensures Good(old(Now())) ==> && Good(Now()) && windowUpdateStack == old(windowUpdateStack)
                                   && SameSlots(old(Now()), Now())
    {
      if Good(Now()) { U.FrameRestores(Now(), handle, bodies, closed); }
      if handle !in windows || windows[handle].None? { return U.Refused; }
      var panicked := RunPhases(bodies);
      if panicked {
        var escaped := CleanUpAfterPanic(handle, closed);
        return U.Caught(escaped);
      }
      panicked := DrainIdle();
      return if panicked then U.IdlePanic else U.Completed;
    }
  }
}

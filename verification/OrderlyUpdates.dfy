/** When code run under the flush guard leaves it up: exactly when every update it makes ends normally. */
module OrderlyUpdates {
  import opened Wrappers
  import opened EffectQueue
  import opened Updates

  /** The updates made by the code, at any depth and caught or not, end normally. */
  ghost predicate AllOrderly(w: World, ops: seq<Op>)
    decreases Load(w.queue) + SizeAll(ops), 4, |ops|
  {
    ops == [] ||
    var r := Perform(w, ops[0]);
    Orderly(w, ops[0]) && (r.panicked || AllOrderly(r.world, ops[1..]))
  }

  ghost predicate Orderly(w: World, op: Op)
    decreases Load(w.queue) + Size(op), 3, 0
  {
    var started := w.(pending := w.pending + 1);
    match op
    case Update(body) => !Exec(started, body).panicked && AllOrderly(started, body)
    case UpdateWindow(id, body, removes, closed) =>
      id in w.stack || (!InWindow(started, id, body, removes, closed).panicked
                        && WindowOrderly(started, id, body, removes, closed))
    case OpenWindow(prepare, fails, build, draw) =>
      !Opening(started, prepare, fails, build, draw).panicked && OpeningOrderly(started, prepare, fails, build, draw)
    case Catch(body) => AllOrderly(w, body)
    case _ => true
  }

  ghost predicate WindowOrderly(w: World, id: nat, body: seq<Op>, removes: bool, closed: seq<Op>)
    decreases Load(w.queue) + SizeAll(body) + SizeAll(closed), 5, 0
  {
    id !in w.slots || w.slots[id].None? ||
    var inside := w.(slots := w.slots[id := None], stack := w.stack + [id]);
    var r := Exec(inside, body);
    && AllOrderly(inside, body)
    && (r.panicked || !(w.slots[id].value || removes)
        || AllOrderly(r.world.(stack := Truncate(r.world.stack, |w.stack|), slots := r.world.slots - {id}), closed))
  }

  ghost predicate OpeningOrderly(w: World, prepare: seq<Op>, fails: bool, build: seq<Op>, draw: seq<Op>)
    decreases Load(w.queue) + SizeAll(prepare) + SizeAll(build) + SizeAll(draw), 6, 0
  {
    var added := w.(slots := w.slots[w.nextId := None], nextId := w.nextId + 1);
    var r := Exec(added, prepare);
    AllOrderly(added, prepare) && (r.panicked || fails || BuildingOrderly(r.world, w.nextId, build, draw))
  }

  ghost predicate BuildingOrderly(w: World, id: nat, build: seq<Op>, draw: seq<Op>)
    decreases Load(w.queue) + SizeAll(build) + SizeAll(draw), 5, 0
  {
    var inside := w.(stack := w.stack + [id]);
    var b := Exec(inside, build);
    AllOrderly(inside, build)
    && (b.panicked || AllOrderly(b.world.(stack := Truncate(b.world.stack, |w.stack|)), draw))
  }

  ghost predicate FlushOrderly(w: World, scope: FlushScope)
    decreases Load(w.queue), 0, 0
  {
    w.queue == [] ||
    var e, popped := w.queue[0], w.(queue := w.queue[1..]);
    if !scope.Admits(e.placement) then FlushOrderly(popped, scope)
    else
      var r := Exec(popped, e.callback);
      AllOrderly(popped, e.callback) && (r.panicked || FlushOrderly(r.world, scope))
  }

  /** Whatever the code does and however it ends, the guard is up afterwards exactly when it was up before and every
      update ended normally. */
  lemma {:induction false} GuardStaysUpIff(w: World, ops: seq<Op>)
    ensures Exec(w, ops).world.flushing <==> w.flushing && AllOrderly(w, ops)
    decreases Load(w.queue) + SizeAll(ops), 4, |ops|
  {
    if ops != [] {
      var r := Perform(w, ops[0]);
      OpKeepsGuardIff(w, ops[0]);
      if !r.panicked {
        GuardStaysUpIff(r.world, ops[1..]);
      }
    }
  }

  lemma {:induction false} OpKeepsGuardIff(w: World, op: Op)
    ensures Perform(w, op).world.flushing <==> w.flushing && Orderly(w, op)
    decreases Load(w.queue) + Size(op), 3, 0
  {
    var started := w.(pending := w.pending + 1);
    match op
    case Update(body) =>
      GuardStaysUpIff(started, body);
      EndingKeepsGuardIff(Exec(started, body));
    case UpdateWindow(id, body, removes, closed) =>
      if id !in w.stack {
        WindowKeepsGuardIff(started, id, body, removes, closed);
        EndingKeepsGuardIff(InWindow(started, id, body, removes, closed));
      }
    case OpenWindow(prepare, fails, build, draw) =>
      OpeningKeepsGuardIff(started, prepare, fails, build, draw);
      EndingKeepsGuardIff(Opening(started, prepare, fails, build, draw));
    case Catch(body) =>
      GuardStaysUpIff(w, body);
    case _ =>
  }

  /** Giving an update up clears the guard; finishing it leaves a raised guard alone and never raises one for good. */
  lemma {:induction false} EndingKeepsGuardIff(r: Ran)
    ensures Conclude(r).world.flushing <==> r.world.flushing && !r.panicked
  {
  }

  lemma {:induction false} WindowKeepsGuardIff(w: World, id: nat, body: seq<Op>, removes: bool, closed: seq<Op>)
    ensures InWindow(w, id, body, removes, closed).world.flushing
            <==> w.flushing && WindowOrderly(w, id, body, removes, closed)
    decreases Load(w.queue) + SizeAll(body) + SizeAll(closed), 5, 0
  {
    if id in w.slots && w.slots[id].Some? {
      var inside := w.(slots := w.slots[id := None], stack := w.stack + [id]);
      var r := Exec(inside, body);
      GuardStaysUpIff(inside, body);
      if (w.slots[id].value || removes) && !r.panicked {
        GuardStaysUpIff(r.world.(stack := Truncate(r.world.stack, |w.stack|), slots := r.world.slots - {id}), closed);
      }
    }
  }

  lemma {:induction false} OpeningKeepsGuardIff(w: World, prepare: seq<Op>, fails: bool, build: seq<Op>,
                                                draw: seq<Op>)
    ensures Opening(w, prepare, fails, build, draw).world.flushing
            <==> w.flushing && OpeningOrderly(w, prepare, fails, build, draw)
    decreases Load(w.queue) + SizeAll(prepare) + SizeAll(build) + SizeAll(draw), 6, 0
  {
    var added := w.(slots := w.slots[w.nextId := None], nextId := w.nextId + 1);
    var r := Exec(added, prepare);
    GuardStaysUpIff(added, prepare);
    if !r.panicked && !fails {
      BuildingKeepsGuardIff(r.world, w.nextId, build, draw);
    }
  }

  lemma {:induction false} BuildingKeepsGuardIff(w: World, id: nat, build: seq<Op>, draw: seq<Op>)
    ensures Building(w, id, build, draw).world.flushing <==> w.flushing && BuildingOrderly(w, id, build, draw)
    decreases Load(w.queue) + SizeAll(build) + SizeAll(draw), 5, 0
  {
    var inside := w.(stack := w.stack + [id]);
    var b := Exec(inside, build);
    GuardStaysUpIff(inside, build);
    if !b.panicked {
      GuardStaysUpIff(b.world.(stack := Truncate(b.world.stack, |w.stack|)), draw);
    }
  }

  /** The same for a whole drain, and so for one that panics. */
  lemma {:induction false} FlushKeepsGuardIff(w: World, carry: seq<Deferred>, scope: FlushScope)
    ensures Flush(w, carry, scope).world.flushing <==> w.flushing && FlushOrderly(w, scope)
    decreases Load(w.queue), 0, 0
  {
    if w.queue != [] {
      var e, popped := w.queue[0], w.(queue := w.queue[1..]);
      if !scope.Admits(e.placement) {
        FlushKeepsGuardIff(popped, carry + [e], scope);
      } else {
        var r := Exec(popped, e.callback);
        GuardStaysUpIff(popped, e.callback);
        if !r.panicked {
          FlushKeepsGuardIff(r.world, carry, scope);
        }
      }
    }
  }

  // ----- panics that no update lets through -----

  /** The code panics outside any update of its own. */
  ghost predicate EscapesBare(w: World, ops: seq<Op>)
    decreases |ops|
  {
    ops != [] &&
    var r := Perform(w, ops[0]);
    if r.panicked then ops[0].Panic? else EscapesBare(r.world, ops[1..])
  }

  /** The callback that ends the drain panics outside any update of its own. */
  ghost predicate DrainEscapesBare(w: World, scope: FlushScope)
    decreases Load(w.queue)
  {
    w.queue != [] &&
    var e, popped := w.queue[0], w.(queue := w.queue[1..]);
    if !scope.Admits(e.placement) then DrainEscapesBare(popped, scope)
    else
      var r := Exec(popped, e.callback);
      if r.panicked then EscapesBare(popped, e.callback) else DrainEscapesBare(r.world, scope)
  }

  lemma {:induction false} PanickedUpdateClearsGuard(w: World, op: Op)
    requires Perform(w, op).panicked && !op.Panic?
    ensures !Perform(w, op).world.flushing
  {
    var started := w.(pending := w.pending + 1);
    match op
    case Update(body) => ConcludedPanicClears(Exec(started, body));
    case UpdateWindow(id, body, removes, closed) => ConcludedPanicClears(InWindow(started, id, body, removes, closed));
    case OpenWindow(prepare, fails, build, draw) => ConcludedPanicClears(Opening(started, prepare, fails, build, draw));
    case _ =>
  }

  lemma {:induction false} ConcludedPanicClears(r: Ran)
    ensures Conclude(r).panicked ==> !Conclude(r).world.flushing
  {
  }

  /** Where no panic of an update is caught, a panic leaves the guard up exactly when it comes from outside any update
      made by the code. */
  lemma {:induction false} PanicKeepsGuardIff(w: World, ops: seq<Op>)
    requires Good(w) && Sheltered(w, 1) && AllUncaught(ops) && Exec(w, ops).panicked
    ensures Exec(w, ops).world.flushing <==> w.flushing && EscapesBare(w, ops)
    decreases |ops|
  {
    var r := Perform(w, ops[0]);
    PerformRestores(w, ops[0]);
    PerformKeepsShelter(w, ops[0]);
    if !r.panicked {
      PanicKeepsGuardIff(r.world, ops[1..]);
    } else if !ops[0].Panic? {
      PanickedUpdateClearsGuard(w, ops[0]);
    } else {
      assert r.world == w;
    }
  }

  lemma {:induction false} PanickedDrainKeepsGuardIff(w: World, carry: seq<Deferred>, scope: FlushScope)
    requires Good(w) && Sheltered(w, 1) && Flush(w, carry, scope).panicked
    ensures Flush(w, carry, scope).world.flushing <==> w.flushing && DrainEscapesBare(w, scope)
    decreases Load(w.queue)
  {
    var e, popped := w.queue[0], w.(queue := w.queue[1..]);
    if !scope.Admits(e.placement) {
      PanickedDrainKeepsGuardIff(popped, carry + [e], scope);
    } else {
      var r := Exec(popped, e.callback);
      if r.panicked {
        PanicKeepsGuardIff(popped, e.callback);
      } else {
        ExecRestores(popped, e.callback);
        ExecKeepsShelter(popped, e.callback);
        PanickedDrainKeepsGuardIff(r.world, carry, scope);
      }
    }
  }
}

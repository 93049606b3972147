/** Nested updates of the application and of its windows, left normally or by a panic: what code run by the
    application does to the update counter, the flush guard, the stack of updated windows and the window slots. */
module Updates {
  import opened Wrappers
  import opened EffectQueue

  /** Application code, as far as it concerns the guards. */
  datatype Op =
    | Update(body: seq<Op>)
    /** `removes`: the body marks the window removed; `closed`: what window-closed observers do. */
    | UpdateWindow(id: nat, body: seq<Op>, removes: bool, closed: seq<Op>)
    /** What creating the platform window, building the root view and the first draw do; creation may fail. */
    | OpenWindow(prepare: seq<Op>, fails: bool, build: seq<Op>, draw: seq<Op>)
    | Later(placement: DeferPlacement, callback: seq<Op>)
    | Panic
    /** Code that catches the panics of its body. */
    | Catch(body: seq<Op>)

  datatype Deferred = Deferred(placement: DeferPlacement, callback: seq<Op>)

  /** A slot is None while its window is taken out for an update, and else tells if the window is marked removed.
      `guards` counts the flushes of finished updates and the phase brackets under way; `nested` records that a
      finished update began to flush inside one of them. */
  datatype World = World(pending: int, flushing: bool, stack: seq<nat>, slots: map<nat, Option<bool>>, nextId: nat,
                         queue: seq<Deferred>, guards: int, nested: bool)

  datatype Ran = Ran(world: World, panicked: bool)

  function Size(op: Op): (n: nat)
    ensures n > 0
  {
    match op
    case Update(body) => 1 + SizeAll(body)
    case UpdateWindow(_, body, _, closed) => 1 + SizeAll(body) + SizeAll(closed)
    case OpenWindow(prepare, _, build, draw) => 1 + SizeAll(prepare) + SizeAll(build) + SizeAll(draw)
    case Later(_, callback) => 1 + SizeAll(callback)
    case Panic => 1
    case Catch(body) => 1 + SizeAll(body)
  }

  function SizeAll(ops: seq<Op>): nat {
    if ops == [] then 0 else Size(ops[0]) + SizeAll(ops[1..])
  }

  function Load(queue: seq<Deferred>): nat {
    if queue == [] then 0 else 1 + SizeAll(queue[0].callback) + Load(queue[1..])
  }

  lemma {:induction false} LoadAdds(a: seq<Deferred>, b: seq<Deferred>)
    ensures Load(a + b) == Load(a) + Load(b)
    decreases |a|
  {
    if a == [] {
      assert a + b == b;
    } else {
      assert (a + b)[1..] == a[1..] + b;
      LoadAdds(a[1..], b);
    }
  }

  function Truncate(stack: seq<nat>, len: nat): seq<nat> {
    if len < |stack| then stack[..len] else stack
  }

  function Exec(w: World, ops: seq<Op>): (r: Ran)
    ensures Load(r.world.queue) <= Load(w.queue) + SizeAll(ops)
    decreases Load(w.queue) + SizeAll(ops), 4, |ops|
  {
    if ops == [] then Ran(w, false)
    else
      var r := Perform(w, ops[0]);
      if r.panicked then r else Exec(r.world, ops[1..])
  }

  function Perform(w: World, op: Op): (r: Ran)
    ensures Load(r.world.queue) <= Load(w.queue) + Size(op)
    decreases Load(w.queue) + Size(op), 3, 0
  {
    match op
    case Update(body) => Conclude(Exec(w.(pending := w.pending + 1), body))
    case UpdateWindow(id, body, removes, closed) =>
      if id in w.stack then Ran(w, false)
      else Conclude(InWindow(w.(pending := w.pending + 1), id, body, removes, closed))
    case OpenWindow(prepare, fails, build, draw) =>
      Conclude(Opening(w.(pending := w.pending + 1), prepare, fails, build, draw))
    case Later(placement, callback) =>
      LoadAdds(w.queue, [Deferred(placement, callback)]);
      Ran(w.(queue := w.queue + [Deferred(placement, callback)]), false)
    case Panic => Ran(w, true)
    case Catch(body) => Ran(Exec(w, body).world, false)
  }

  /** The window is taken out of its slot and its id pushed while the body runs; then the id is popped and the window
      put back, or dropped for good if it was marked removed. */
  function InWindow(w: World, id: nat, body: seq<Op>, removes: bool, closed: seq<Op>): (r: Ran)
    ensures Load(r.world.queue) <= Load(w.queue) + SizeAll(body) + SizeAll(closed)
    decreases Load(w.queue) + SizeAll(body) + SizeAll(closed), 5, 0
  {
    if id !in w.slots || w.slots[id].None? then Ran(w, false)
    else
      var removed := w.slots[id].value || removes;
      var r := Exec(w.(slots := w.slots[id := None], stack := w.stack + [id]), body);
      var back := r.world.(stack := Truncate(r.world.stack, |w.stack|));
      var putBack := if id in back.slots then back.slots[id := Some(removed)] else back.slots;
      if r.panicked then Ran(back.(slots := putBack), true)
      else if removed then Exec(back.(slots := back.slots - {id}), closed)
      else Ran(back.(slots := putBack), false)
  }

  /** A new slot without a window; the window fills it once it is built and drawn, and on failure the slot goes. */
  function Opening(w: World, prepare: seq<Op>, fails: bool, build: seq<Op>, draw: seq<Op>): (r: Ran)
    ensures Load(r.world.queue) <= Load(w.queue) + SizeAll(prepare) + SizeAll(build) + SizeAll(draw)
    decreases Load(w.queue) + SizeAll(prepare) + SizeAll(build) + SizeAll(draw), 6, 0
  {
    var id := w.nextId;
    var r := Exec(w.(slots := w.slots[id := None], nextId := id + 1), prepare);
    if r.panicked || fails then Ran(r.world.(slots := r.world.slots - {id}), r.panicked)
    else Building(r.world, id, build, draw)
  }

  /** The root view is built with the id on the stack and drawn with the id popped, the slot still empty. */
  function Building(w: World, id: nat, build: seq<Op>, draw: seq<Op>): (r: Ran)
    ensures Load(r.world.queue) <= Load(w.queue) + SizeAll(build) + SizeAll(draw)
    decreases Load(w.queue) + SizeAll(build) + SizeAll(draw), 5, 0
  {
    var b := Exec(w.(stack := w.stack + [id]), build);
    var back := b.world.(stack := Truncate(b.world.stack, |w.stack|));
    if b.panicked then Ran(back.(slots := back.slots - {id}), true)
    else
      var d := Exec(back, draw);
      if d.panicked || id !in d.world.slots then Ran(d.world.(slots := d.world.slots - {id}), true)
      else Ran(d.world.(slots := d.world.slots[id := Some(false)]), false)
  }

  /** How an update ends once its closure has: finished, or given up when the closure or the flush panicked. */
  function Conclude(r: Ran): (c: Ran)
    ensures Load(c.world.queue) <= Load(r.world.queue)
    decreases Load(r.world.queue), 2, 0
  {
    if r.panicked then Ran(Abort(r.world), true)
    else
      var f := Finish(r.world);
      if f.panicked then Ran(Abort(f.world), true) else f
  }

  function Abort(w: World): World {
    w.(pending := if w.pending > 0 then w.pending - 1 else w.pending, flushing := false)
  }

  function Finish(w: World): (r: Ran)
    ensures Load(r.world.queue) <= Load(w.queue)
    decreases Load(w.queue), 1, 0
  {
    if !w.flushing && w.pending == 1 then
      var r := Flush(w.(flushing := true, guards := w.guards + 1, nested := w.nested || w.guards > 0), [], Legacy);
      var out := r.world.(guards := r.world.guards - 1);
      if r.panicked then Ran(out, true)
      else Ran(out.(flushing := false, pending := out.pending - 1), false)
    else Ran(w.(pending := w.pending - 1), false)
  }

  /** Runs the callbacks the scope admits and puts the others back in front; a panic loses those held back so far. */
  function Flush(w: World, carry: seq<Deferred>, scope: FlushScope): (r: Ran)
    ensures Load(r.world.queue) <= Load(w.queue) + Load(carry)
    decreases Load(w.queue), 0, 0
  {
    if w.queue == [] then Ran(w.(queue := carry), false)
    else
      var e := w.queue[0];
      var popped := w.(queue := w.queue[1..]);
      if !scope.Admits(e.placement) then
        LoadAdds(carry, [e]);
        Flush(popped, carry + [e], scope)
      else
        var r := Exec(popped, e.callback);
        if r.panicked then r else Flush(r.world, carry, scope)
  }

  // ----- what every exit restores -----

  predicate Taken(slots: map<nat, Option<bool>>, id: nat) {
    id in slots && slots[id].None?
  }

  predicate Distinct(stack: seq<nat>) {
    forall i, j :: 0 <= i < j < |stack| ==> stack[i] != stack[j]
  }

  ghost predicate SlotsOf(w: World) {
    && (forall id <- w.stack :: Taken(w.slots, id))
    && (forall id <- w.slots :: id < w.nextId)
  }

  /** No id is on the stack twice, windows being updated are out of their slots, and new ids are new. */
  ghost predicate Good(w: World) {
    w.pending >= 0 && Distinct(w.stack) && SlotsOf(w)
  }

  /** Windows taken out stay taken out and no other slot is left empty; no slot reappears. */
  ghost predicate SameSlots(w: World, r: World) {
    && w.nextId <= r.nextId
    && (forall id: nat :: Taken(r.slots, id) <==> Taken(w.slots, id))
    && (forall id: nat | id < w.nextId :: id in r.slots ==> id in w.slots)
  }

  /** The counter moved by `change` and everything else the guards are about is as it was; the flush guard can only
      have been cleared; and nothing nested, provided a guarded flush has `depth` updates around it. */
  ghost predicate Restores(w: World, r: World, change: int, depth: int) {
    && Good(r) && r.pending == w.pending + change && r.stack == w.stack && r.guards == w.guards
    && (r.flushing ==> w.flushing)
    && SameSlots(w, r)
    && ((w.guards > 0 ==> w.pending >= depth) ==> r.nested == w.nested)
  }

  lemma {:induction false} RestoresTwice(w: World, m: World, r: World, change: int, depth: int)
    requires Restores(w, m, 0, depth) && Restores(m, r, change, depth)
    ensures Restores(w, r, change, depth)
  {
  }

  lemma {:induction false} ExecRestores(w: World, ops: seq<Op>)
    requires Good(w)
    ensures Restores(w, Exec(w, ops).world, 0, 1)
    decreases Load(w.queue) + SizeAll(ops), 4, |ops|
  {
    if ops != [] {
      var r := Perform(w, ops[0]);
      PerformRestores(w, ops[0]);
      if !r.panicked {
        ExecRestores(r.world, ops[1..]);
        RestoresTwice(w, r.world, Exec(r.world, ops[1..]).world, 0, 1);
      }
    }
  }

  lemma {:induction false} PerformRestores(w: World, op: Op)
    requires Good(w)
    ensures Restores(w, Perform(w, op).world, 0, 1)
    decreases Load(w.queue) + Size(op), 3, 0
  {
    var started := w.(pending := w.pending + 1);
    match op
    case Update(body) =>
      ExecRestores(started, body);
      ConcludeRestores(w, Exec(started, body));
    case UpdateWindow(id, body, removes, closed) =>
      if id !in w.stack {
        InWindowRestores(started, id, body, removes, closed);
        ConcludeRestores(w, InWindow(started, id, body, removes, closed));
      }
    case OpenWindow(prepare, fails, build, draw) =>
      OpeningRestores(started, prepare, fails, build, draw);
      ConcludeRestores(w, Opening(started, prepare, fails, build, draw));
    case Later(_, _) =>
    case Panic =>
    case Catch(body) => ExecRestores(w, body);
  }

  /** An update from `w` whose closure restored what it had to is balanced, however the closure and the flush end. */
  lemma {:induction false} ConcludeRestores(w: World, r: Ran)
    requires Good(w) && Restores(w.(pending := w.pending + 1), r.world, 0, 2)
    ensures Restores(w, Conclude(r).world, 0, 1)
    decreases Load(r.world.queue), 2, 0
  {
    if !r.panicked {
      FinishRestores(r.world);
    }
  }

  lemma {:induction false} FinishRestores(w: World)
    requires Good(w) && w.pending >= 1
    ensures Restores(w, if Finish(w).panicked then Abort(Finish(w).world) else Finish(w).world, -1, 2)
    decreases Load(w.queue), 1, 0
  {
    if !w.flushing && w.pending == 1 {
      FlushRestores(w.(flushing := true, guards := w.guards + 1, nested := w.nested || w.guards > 0), [], Legacy);
    }
  }

  lemma {:induction false} FlushRestores(w: World, carry: seq<Deferred>, scope: FlushScope)
    requires Good(w)
    ensures Restores(w, Flush(w, carry, scope).world, 0, 1)
    decreases Load(w.queue), 0, 0
  {
    if w.queue != [] {
      var e := w.queue[0];
      var popped := w.(queue := w.queue[1..]);
      if !scope.Admits(e.placement) {
        FlushRestores(popped, carry + [e], scope);
      } else {
        var r := Exec(popped, e.callback);
        ExecRestores(popped, e.callback);
        if !r.panicked {
          FlushRestores(r.world, carry, scope);
          RestoresTwice(popped, r.world, Flush(r.world, carry, scope).world, 0, 1);
        }
      }
    }
  }

  lemma {:induction false} PushTaken(w: World, id: nat)
    requires Good(w) && Taken(w.slots, id) && id !in w.stack
    ensures Good(w.(stack := w.stack + [id]))
  {
  }

  lemma {:induction false} PopTaken(w: World, id: nat, r: World)
    requires Good(w) && Restores(w.(stack := w.stack + [id]), r, 0, 1)
    ensures Restores(w, r.(stack := Truncate(r.stack, |w.stack|)), 0, 1)
  {
    assert (w.stack + [id])[..|w.stack|] == w.stack;
  }

  lemma {:induction false} TakeOut(w: World, id: nat)
    requires Good(w) && id in w.slots && id !in w.stack
    ensures Good(w.(slots := w.slots[id := None]))
  {
  }

  lemma {:induction false} PutBack(w: World, id: nat, r: World, slot: Option<bool>)
    requires Good(w) && id in w.slots && w.slots[id].Some? && slot.Some?
    requires Restores(w.(slots := w.slots[id := None]), r, 0, 1)
    ensures id in r.slots && Restores(w, r.(slots := r.slots[id := slot]), 0, 1)
    ensures Restores(w, r.(slots := r.slots - {id}), 0, 1)
  {
    var out := w.(slots := w.slots[id := None]);
    assert Taken(out.slots, id);
    FreesSlot(out, w, id, r, r.(slots := r.slots[id := slot]));
    FreesSlot(out, w, id, r, r.(slots := r.slots - {id}));
  }

  /** Once one more window is taken out than in `w`, filling or dropping its slot restores `w`. */
  lemma {:induction false} FreesSlot(out: World, w: World, id: nat, r: World, freed: World)
    requires Good(w) && id !in w.stack && Restores(out, r, 0, 1) && !Taken(w.slots, id)
    requires out == w.(slots := w.slots[id := None], nextId := out.nextId)
    requires out.nextId == if id in w.slots then w.nextId else w.nextId + 1
    requires id in w.slots || id == w.nextId
    requires freed == r.(slots := freed.slots)
    requires !Taken(freed.slots, id) && id < r.nextId
    requires forall x: nat | x != id :: x in freed.slots <==> x in r.slots
    requires forall x: nat | x != id && x in r.slots :: freed.slots[x] == r.slots[x]
    ensures Restores(w, freed, 0, 1)
  {
    forall x: nat ensures Taken(freed.slots, x) <==> Taken(w.slots, x) {
      assert Taken(out.slots, x) <==> Taken(r.slots, x);
      if x != id {
        assert Taken(freed.slots, x) <==> Taken(r.slots, x);
        assert Taken(out.slots, x) <==> Taken(w.slots, x);
      }
    }
    forall x: nat | x < w.nextId ensures x in freed.slots ==> x in w.slots {
      if x != id && x in freed.slots {
        assert x in r.slots;
        assert x in out.slots;
      }
    }
  }

  lemma {:induction false} NewSlot(w: World)
    requires Good(w)
    ensures Good(w.(slots := w.slots[w.nextId := None], nextId := w.nextId + 1))
    ensures w.nextId !in w.stack
  {
    assert w.nextId in w.stack ==> Taken(w.slots, w.nextId);
  }

  lemma {:induction false} FillNewSlot(w: World, r: World, slot: Option<bool>)
    requires Good(w) && slot.Some?
    requires Restores(w.(slots := w.slots[w.nextId := None], nextId := w.nextId + 1), r, 0, 1)
    ensures w.nextId in r.slots && Restores(w, r.(slots := r.slots[w.nextId := slot]), 0, 1)
    ensures Restores(w, r.(slots := r.slots - {w.nextId}), 0, 1)
  {
    NewSlot(w);
    var id := w.nextId;
    var out := w.(slots := w.slots[id := None], nextId := id + 1);
    assert Taken(out.slots, id);
    FreesSlot(out, w, id, r, r.(slots := r.slots[id := slot]));
    FreesSlot(out, w, id, r, r.(slots := r.slots - {id}));
  }

  lemma {:induction false} EnterWindow(w: World, id: nat)
    requires Good(w) && id in w.slots && id !in w.stack
    ensures Good(w.(slots := w.slots[id := None], stack := w.stack + [id]))
  {
    TakeOut(w, id);
    PushTaken(w.(slots := w.slots[id := None]), id);
  }

  lemma {:induction false} LeaveWindow(w: World, id: nat, r: World, back: World, slot: Option<bool>)
    requires Good(w) && id in w.slots && w.slots[id].Some? && id !in w.stack && slot.Some?
    requires Restores(w.(slots := w.slots[id := None], stack := w.stack + [id]), r, 0, 1)
    requires back == r.(stack := Truncate(r.stack, |w.stack|))
    ensures id in back.slots && Restores(w, back.(slots := back.slots[id := slot]), 0, 1)
    ensures Restores(w, back.(slots := back.slots - {id}), 0, 1)
  {
    TakeOut(w, id);
    PopTaken(w.(slots := w.slots[id := None]), id, r);
    PutBack(w, id, back, slot);
  }

  lemma {:induction false} BodyRestores(w: World, id: nat, body: seq<Op>, slot: Option<bool>)
    requires Good(w) && id in w.slots && w.slots[id].Some? && id !in w.stack && slot.Some?
    ensures var r := Exec(w.(slots := w.slots[id := None], stack := w.stack + [id]), body).world;
            var back := r.(stack := Truncate(r.stack, |w.stack|));
            && id in back.slots && Restores(w, back.(slots := back.slots[id := slot]), 0, 1)
            && Restores(w, back.(slots := back.slots - {id}), 0, 1)
    decreases Load(w.queue) + SizeAll(body), 5, 0
  {
    var inside := w.(slots := w.slots[id := None], stack := w.stack + [id]);
    var r := Exec(inside, body).world;
    EnterWindow(w, id);
    ExecRestores(inside, body);
    LeaveWindow(w, id, r, r.(stack := Truncate(r.stack, |w.stack|)), slot);
  }

  lemma {:induction false} InWindowRestores(w: World, id: nat, body: seq<Op>, removes: bool, closed: seq<Op>)
    requires Good(w) && id !in w.stack
    ensures Restores(w, InWindow(w, id, body, removes, closed).world, 0, 1)
    decreases Load(w.queue) + SizeAll(body) + SizeAll(closed), 6, 0
  {
    if id in w.slots && w.slots[id].Some? {
      var removed := w.slots[id].value || removes;
      var r := Exec(w.(slots := w.slots[id := None], stack := w.stack + [id]), body);
      BodyRestores(w, id, body, Some(removed));
      if removed && !r.panicked {
        var dropped := r.world.(stack := Truncate(r.world.stack, |w.stack|), slots := r.world.slots - {id});
        ExecRestores(dropped, closed);
        RestoresTwice(w, dropped, Exec(dropped, closed).world, 0, 1);
      }
    }
  }

  lemma {:induction false} BuildRestores(added: World, m: World, id: nat, build: seq<Op>)
    requires Good(added) && Taken(added.slots, id) && id !in added.stack && Restores(added, m, 0, 1)
    ensures Good(m.(stack := m.stack + [id]))
    ensures var b := Exec(m.(stack := m.stack + [id]), build).world;
            Restores(added, b.(stack := Truncate(b.stack, |m.stack|)), 0, 1)
    decreases Load(m.queue) + SizeAll(build), 5, 0
  {
    var b := Exec(m.(stack := m.stack + [id]), build).world;
    PushTaken(m, id);
    ExecRestores(m.(stack := m.stack + [id]), build);
    PopTaken(m, id, b);
    RestoresTwice(added, m, b.(stack := Truncate(b.stack, |m.stack|)), 0, 1);
  }

  lemma {:induction false} OpeningRestores(w: World, prepare: seq<Op>, fails: bool, build: seq<Op>, draw: seq<Op>)
    requires Good(w)
    ensures Restores(w, Opening(w, prepare, fails, build, draw).world, 0, 1)
    decreases Load(w.queue) + SizeAll(prepare) + SizeAll(build) + SizeAll(draw), 7, 0
  {
    var id := w.nextId;
    var added := w.(slots := w.slots[id := None], nextId := id + 1);
    var r := Exec(added, prepare);
    NewSlot(w);
    ExecRestores(added, prepare);
    if r.panicked || fails {
      FillNewSlot(w, r.world, Some(false));
    } else {
      BuildingRestores(w, r.world, build, draw);
    }
  }

  lemma {:induction false} BuildingRestores(w: World, m: World, build: seq<Op>, draw: seq<Op>)
    requires Good(w) && Restores(w.(slots := w.slots[w.nextId := None], nextId := w.nextId + 1), m, 0, 1)
    ensures Restores(w, Building(m, w.nextId, build, draw).world, 0, 1)
    decreases Load(m.queue) + SizeAll(build) + SizeAll(draw), 6, 0
  {
    var id := w.nextId;
    var added := w.(slots := w.slots[id := None], nextId := id + 1);
    var b := Exec(m.(stack := m.stack + [id]), build);
    var back := b.world.(stack := Truncate(b.world.stack, |m.stack|));
    NewSlot(w);
    assert Taken(added.slots, id);
    BuildRestores(added, m, id, build);
    if b.panicked {
      FillNewSlot(w, back, Some(false));
    } else {
      DrawRestores(added, back, draw);
      FillNewSlot(w, Exec(back, draw).world, Some(false));
    }
  }

  lemma {:induction false} DrawRestores(added: World, m: World, draw: seq<Op>)
    requires Restores(added, m, 0, 1)
    ensures Restores(added, Exec(m, draw).world, 0, 1)
    decreases Load(m.queue) + SizeAll(draw), 5, 0
  {
    ExecRestores(m, draw);
    RestoresTwice(added, m, Exec(m, draw).world, 0, 1);
  }

  /** However its body ends, a window that was updated is back in its slot, unless it was marked removed and the
      body ended normally: then it is gone for good. */
  lemma {:induction false} WindowComesBack(w: World, id: nat, body: seq<Op>, removes: bool, closed: seq<Op>)
    requires Good(w) && id !in w.stack && id in w.slots && w.slots[id].Some?
    ensures var out := w.(slots := w.slots[id := None], stack := w.stack + [id]);
            var removed := w.slots[id].value || removes;
            var after := InWindow(w, id, body, removes, closed).world.slots;
            if removed && !Exec(out, body).panicked then id !in after
            else id in after && after[id] == Some(removed)
  {
    var removed := w.slots[id].value || removes;
    var r := Exec(w.(slots := w.slots[id := None], stack := w.stack + [id]), body);
    BodyRestores(w, id, body, Some(removed));
    if removed && !r.panicked {
      ExecRestores(r.world.(stack := Truncate(r.world.stack, |w.stack|), slots := r.world.slots - {id}), closed);
    }
  }

  /** An outermost update outside any guarded flush that ends normally leaves nothing queued. */
  lemma {:induction false} OutermostUpdatesEmptyTheQueue(w: World, r: Ran)
    requires Good(w) && w.pending == 0 && !w.flushing && Restores(w.(pending := 1), r.world, 0, 2) && !r.panicked
    ensures !Conclude(r).panicked ==> Conclude(r).world.queue == []
  {
    assert !r.world.flushing;
    var started := r.world.(flushing := true, guards := r.world.guards + 1,
                            nested := r.world.nested || r.world.guards > 0);
    LegacyFlushEmpties(started);
  }

  lemma {:induction false} LegacyFlushEmpties(w: World)
    ensures !Flush(w, [], Legacy).panicked ==> Flush(w, [], Legacy).world.queue == []
    decreases Load(w.queue)
  {
    if w.queue != [] {
      var r := Exec(w.(queue := w.queue[1..]), w.queue[0].callback);
      if !r.panicked {
        LegacyFlushEmpties(r.world);
      }
    }
  }

  // ----- code that catches no panics of updates -----

  /** No panic of an update is caught: a `Catch` has no update in its body. */
  predicate Uncaught(op: Op) {
    match op
    case Update(body) => AllUncaught(body)
    case UpdateWindow(_, body, _, closed) => AllUncaught(body) && AllUncaught(closed)
    case OpenWindow(prepare, _, build, draw) => AllUncaught(prepare) && AllUncaught(build) && AllUncaught(draw)
    case Later(_, callback) => AllUncaught(callback)
    case Panic => true
    case Catch(body) => AllWithoutUpdate(body) && AllUncaught(body)
  }

  predicate WithoutUpdate(op: Op) {
    match op
    case Later(_, _) => true
    case Panic => true
    case Catch(body) => AllWithoutUpdate(body)
    case _ => false
  }

  predicate AllWithoutUpdate(ops: seq<Op>) {
    ops == [] || (WithoutUpdate(ops[0]) && AllWithoutUpdate(ops[1..]))
  }

  predicate AllUncaught(ops: seq<Op>) {
    ops == [] || (Uncaught(ops[0]) && AllUncaught(ops[1..]))
  }

  predicate QueueUncaught(queue: seq<Deferred>) {
    forall d <- queue :: AllUncaught(d.callback)
  }

  /** Nothing queued catches panics of updates, and every guarded flush has an update around it or the guard up. */
  predicate Sheltered(w: World, depth: int) {
    QueueUncaught(w.queue) && (w.guards > 0 ==> w.pending >= depth || w.flushing)
  }

  /** Where no panic of an update is caught a normal exit leaves the flush guard as it was, and no flush nested. */
  predicate KeepsShelter(w: World, r: Ran) {
    && QueueUncaught(r.world.queue)
    && (!r.panicked ==> r.world.flushing == w.flushing)
    && r.world.nested == w.nested
  }

  lemma {:induction false} ExecKeepsShelter(w: World, ops: seq<Op>)
    requires Good(w) && Sheltered(w, 1) && AllUncaught(ops)
    ensures KeepsShelter(w, Exec(w, ops))
    decreases Load(w.queue) + SizeAll(ops), 4, |ops|
  {
    if ops != [] {
      var r := Perform(w, ops[0]);
      PerformKeepsShelter(w, ops[0]);
      PerformRestores(w, ops[0]);
      if !r.panicked {
        ExecKeepsShelter(r.world, ops[1..]);
      }
    }
  }

  lemma {:induction false} PerformKeepsShelter(w: World, op: Op)
    requires Good(w) && Sheltered(w, 1) && Uncaught(op)
    ensures KeepsShelter(w, Perform(w, op))
    decreases Load(w.queue) + Size(op), 3, 0
  {
    var started := w.(pending := w.pending + 1);
    match op
    case Update(body) =>
      ExecKeepsShelter(started, body);
      ExecRestores(started, body);
      ConcludeKeepsShelter(w, Exec(started, body));
    case UpdateWindow(id, body, removes, closed) =>
      if id !in w.stack {
        InWindowKeepsShelter(started, id, body, removes, closed);
        InWindowRestores(started, id, body, removes, closed);
        ConcludeKeepsShelter(w, InWindow(started, id, body, removes, closed));
      }
    case OpenWindow(prepare, fails, build, draw) =>
      OpeningKeepsShelter(started, prepare, fails, build, draw);
      OpeningRestores(started, prepare, fails, build, draw);
      ConcludeKeepsShelter(w, Opening(started, prepare, fails, build, draw));
    case Later(_, _) =>
    case Panic =>
    case Catch(body) =>
      ExecKeepsShelter(w, body);
      WithoutUpdateKeepsGuard(w, body);
  }

  lemma {:induction false} WithoutUpdateKeepsGuard(w: World, ops: seq<Op>)
    requires AllWithoutUpdate(ops)
    ensures Exec(w, ops).world.flushing == w.flushing
    decreases SizeAll(ops), |ops|
  {
    if ops != [] {
      var r := Perform(w, ops[0]);
      if ops[0].Catch? {
        WithoutUpdateKeepsGuard(w, ops[0].body);
      }
      if !r.panicked {
        WithoutUpdateKeepsGuard(r.world, ops[1..]);
      }
    }
  }

  lemma {:induction false} ConcludeKeepsShelter(w: World, r: Ran)
    requires Good(w) && Sheltered(w, 1) && KeepsShelter(w.(pending := w.pending + 1), r)
    requires Restores(w.(pending := w.pending + 1), r.world, 0, 2)
    ensures KeepsShelter(w, Conclude(r))
    decreases Load(r.world.queue), 2, 0
  {
    if !r.panicked {
      FinishKeepsShelter(r.world);
    }
  }

  lemma {:induction false} FinishKeepsShelter(w: World)
    requires Good(w) && Sheltered(w, 2) && w.pending >= 1
    ensures KeepsShelter(w, Finish(w))
    decreases Load(w.queue), 1, 0
  {
    if !w.flushing && w.pending == 1 {
      FlushKeepsShelter(w.(flushing := true, guards := w.guards + 1, nested := w.nested || w.guards > 0), [], Legacy);
    }
  }

  lemma {:induction false} FlushKeepsShelter(w: World, carry: seq<Deferred>, scope: FlushScope)
    requires Good(w) && Sheltered(w, 1) && QueueUncaught(carry)
    ensures KeepsShelter(w, Flush(w, carry, scope))
    decreases Load(w.queue), 0, 0
  {
    if w.queue != [] {
      var e := w.queue[0];
      var popped := w.(queue := w.queue[1..]);
      if !scope.Admits(e.placement) {
        FlushKeepsShelter(popped, carry + [e], scope);
      } else {
        var r := Exec(popped, e.callback);
        ExecKeepsShelter(popped, e.callback);
        ExecRestores(popped, e.callback);
        if !r.panicked {
          FlushKeepsShelter(r.world, carry, scope);
        }
      }
    }
  }

  lemma {:induction false} DroppedIsGood(w: World, id: nat, body: seq<Op>)
    requires Good(w) && id in w.slots && w.slots[id].Some? && id !in w.stack
    ensures Good(w.(slots := w.slots[id := None], stack := w.stack + [id]))
    ensures var r := Exec(w.(slots := w.slots[id := None], stack := w.stack + [id]), body).world;
            && Good(r.(stack := Truncate(r.stack, |w.stack|), slots := r.slots - {id}))
            && r.pending == w.pending && r.guards == w.guards
  {
    EnterWindow(w, id);
    BodyRestores(w, id, body, Some(false));
  }

  lemma {:induction false} InWindowKeepsShelter(w: World, id: nat, body: seq<Op>, removes: bool, closed: seq<Op>)
    requires Good(w) && Sheltered(w, 1) && AllUncaught(body) && AllUncaught(closed) && id !in w.stack
    ensures KeepsShelter(w, InWindow(w, id, body, removes, closed))
    decreases Load(w.queue) + SizeAll(body) + SizeAll(closed), 5, 0
  {
    if id in w.slots && w.slots[id].Some? {
      var inside := w.(slots := w.slots[id := None], stack := w.stack + [id]);
      var r := Exec(inside, body);
      DroppedIsGood(w, id, body);
      ExecKeepsShelter(inside, body);
      if (w.slots[id].value || removes) && !r.panicked {
        ExecKeepsShelter(r.world.(stack := Truncate(r.world.stack, |w.stack|), slots := r.world.slots - {id}), closed);
      }
    }
  }

  lemma {:induction false} OpeningKeepsShelter(w: World, prepare: seq<Op>, fails: bool, build: seq<Op>, draw: seq<Op>)
    requires Good(w) && Sheltered(w, 1) && AllUncaught(prepare) && AllUncaught(build) && AllUncaught(draw)
    ensures KeepsShelter(w, Opening(w, prepare, fails, build, draw))
    decreases Load(w.queue) + SizeAll(prepare) + SizeAll(build) + SizeAll(draw), 6, 0
  {
    var id := w.nextId;
    var added := w.(slots := w.slots[id := None], nextId := id + 1);
    var r := Exec(added, prepare);
    NewSlot(w);
    ExecKeepsShelter(added, prepare);
    if !r.panicked && !fails {
      ExecRestores(added, prepare);
      assert Taken(added.slots, id);
      BuildingKeepsShelter(added, r.world, id, build, draw);
    }
  }

  lemma {:induction false} BuildingKeepsShelter(added: World, m: World, id: nat, build: seq<Op>, draw: seq<Op>)
    requires Good(added) && Taken(added.slots, id) && id !in added.stack && Restores(added, m, 0, 1)
    requires Sheltered(m, 1) && AllUncaught(build) && AllUncaught(draw)
    ensures KeepsShelter(m, Building(m, id, build, draw))
    decreases Load(m.queue) + SizeAll(build) + SizeAll(draw), 5, 0
  {
    var b := Exec(m.(stack := m.stack + [id]), build);
    BuildRestores(added, m, id, build);
    ExecKeepsShelter(m.(stack := m.stack + [id]), build);
    if !b.panicked {
      ExecKeepsShelter(b.world.(stack := Truncate(b.world.stack, |m.stack|)), draw);
    }
  }

  // ----- nothing is drained inside an update -----

  lemma {:induction false} ExecExtendsQueue(w: World, ops: seq<Op>)
    requires Good(w) && w.pending >= 1
    ensures w.queue <= Exec(w, ops).world.queue
    decreases Load(w.queue) + SizeAll(ops), 4, |ops|
  {
    if ops != [] {
      var r := Perform(w, ops[0]);
      PerformExtendsQueue(w, ops[0]);
      PerformRestores(w, ops[0]);
      if !r.panicked {
        ExecExtendsQueue(r.world, ops[1..]);
      }
    }
  }

  /** Inside an update every callback queued before is still queued afterwards, in the same place. */
  lemma {:induction false} PerformExtendsQueue(w: World, op: Op)
    requires Good(w) && w.pending >= 1
    ensures w.queue <= Perform(w, op).world.queue
    decreases Load(w.queue) + Size(op), 3, 0
  {
    var started := w.(pending := w.pending + 1);
    match op
    case Update(body) =>
      ExecExtendsQueue(started, body);
      ExecRestores(started, body);
      InnerEndKeepsQueue(Exec(started, body));
    case UpdateWindow(id, body, removes, closed) =>
      if id !in w.stack {
        InWindowExtendsQueue(started, id, body, removes, closed);
        InWindowRestores(started, id, body, removes, closed);
        InnerEndKeepsQueue(InWindow(started, id, body, removes, closed));
      }
    case OpenWindow(prepare, fails, build, draw) =>
      OpeningExtendsQueue(started, prepare, fails, build, draw);
      OpeningRestores(started, prepare, fails, build, draw);
      InnerEndKeepsQueue(Opening(started, prepare, fails, build, draw));
    case Catch(body) => ExecExtendsQueue(w, body);
    case _ =>
  }

  lemma {:induction false} InnerEndKeepsQueue(r: Ran)
    requires r.world.pending >= 2
    ensures Conclude(r).world.queue == r.world.queue && Conclude(r).panicked == r.panicked
  {
  }

  lemma {:induction false} InWindowExtendsQueue(w: World, id: nat, body: seq<Op>, removes: bool, closed: seq<Op>)
    requires Good(w) && w.pending >= 1 && id !in w.stack
    ensures w.queue <= InWindow(w, id, body, removes, closed).world.queue
    decreases Load(w.queue) + SizeAll(body) + SizeAll(closed), 5, 0
  {
    if id in w.slots && w.slots[id].Some? {
      var inside := w.(slots := w.slots[id := None], stack := w.stack + [id]);
      var r := Exec(inside, body);
      DroppedIsGood(w, id, body);
      ExecExtendsQueue(inside, body);
      if (w.slots[id].value || removes) && !r.panicked {
        ExecExtendsQueue(r.world.(stack := Truncate(r.world.stack, |w.stack|), slots := r.world.slots - {id}), closed);
      }
    }
  }

  lemma {:induction false} OpeningExtendsQueue(w: World, prepare: seq<Op>, fails: bool, build: seq<Op>, draw: seq<Op>)
    requires Good(w) && w.pending >= 1
    ensures w.queue <= Opening(w, prepare, fails, build, draw).world.queue
    decreases Load(w.queue) + SizeAll(prepare) + SizeAll(build) + SizeAll(draw), 6, 0
  {
    var id := w.nextId;
    var added := w.(slots := w.slots[id := None], nextId := id + 1);
    var r := Exec(added, prepare);
    NewSlot(w);
    ExecExtendsQueue(added, prepare);
    if !r.panicked && !fails {
      ExecRestores(added, prepare);
      assert Taken(added.slots, id);
      BuildingExtendsQueue(added, r.world, id, build, draw);
    }
  }

  lemma {:induction false} BuildingExtendsQueue(added: World, m: World, id: nat, build: seq<Op>, draw: seq<Op>)
    requires Good(added) && Taken(added.slots, id) && id !in added.stack && Restores(added, m, 0, 1) && m.pending >= 1
    ensures m.queue <= Building(m, id, build, draw).world.queue
    decreases Load(m.queue) + SizeAll(build) + SizeAll(draw), 5, 0
  {
    var b := Exec(m.(stack := m.stack + [id]), build);
    BuildRestores(added, m, id, build);
    ExecExtendsQueue(m.(stack := m.stack + [id]), build);
    if !b.panicked {
      ExecExtendsQueue(b.world.(stack := Truncate(b.world.stack, |m.stack|)), draw);
    }
  }
}

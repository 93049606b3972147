/** The application's side of the effect queue: `push_effect`, `notify`, the drain loop, phases and frames. */
module Apps {
  import opened Wrappers
  import opened EffectQueue
  import F = Frames

  /** Marks the views of one window that have to be drawn again. */
  class Invalidator {
    var dirty: bool
    var drawing: bool
    var dirtyViews: set<nat>

    constructor ()
      ensures dirty && !drawing && dirtyViews == {}
    {
      dirty, drawing, dirtyViews := true, false, {};
    }
  }

  class App {
    var pendingEffects: seq<Effect>
    var pendingNotifications: set<nat>
    var pendingGlobalNotifications: set<nat>
    var flushingEffects: bool
    var currentPhase: FramePhase
    var windows: set<nat>
    /** For each entity the invalidators of the windows that show it. */
    var invalidatorsByEntity: map<nat, seq<Invalidator>>
    /** Everything applied so far, in order. */
    ghost var history: seq<Effect>

    ghost function State(): Pending
      reads this
    {
      Pending(pendingEffects, pendingNotifications, pendingGlobalNotifications)
    }

    ghost function World(): F.Played
      reads this
    {
      F.Played(State(), history)
    }

    constructor ()
      ensures State() == Pending([], {}, {}) && history == []
      ensures !flushingEffects && currentPhase == FramePhase.Idle && windows == {} && invalidatorsByEntity == map[]
    {
      pendingEffects, pendingNotifications, pendingGlobalNotifications, history := [], {}, {}, [];
      flushingEffects, currentPhase, windows, invalidatorsByEntity := false, FramePhase.Idle, {}, map[];
    }

    method PushEffect(e: Effect)
      modifies this`pendingEffects, this`pendingNotifications, this`pendingGlobalNotifications
      ensures State() == Push(old(State()), e)
    {
      match e {
        case Notify(emitter) =>
          if emitter in pendingNotifications { return; }
          pendingNotifications := pendingNotifications + {emitter};
        case NotifyGlobalObservers(globalType) =>
          if globalType in pendingGlobalNotifications { return; }
          pendingGlobalNotifications := pendingGlobalNotifications + {globalType};
        case _ =>
      }
      pendingEffects := pendingEffects + [e];
    }

    /** A callback that pushes effects one after the other. */
    method PushEach(es: seq<Effect>)
      modifies this`pendingEffects, this`pendingNotifications, this`pendingGlobalNotifications
      ensures State() == PushAll(old(State()), es)
    {
      var i := 0;
      while i < |es|
        invariant 0 <= i <= |es|
        invariant PushAll(State(), es[i..]) == PushAll(old(State()), es)
      {
        PushEffect(es[i]);
        i := i + 1;
      }
    }

    /** Marks the view in one window; outside drawing it also makes the window dirty and queues a notification. */
    method InvalidateView(invalidator: Invalidator, entity: nat) returns (queued: bool)
      modifies this`pendingEffects, this`pendingNotifications, this`pendingGlobalNotifications, invalidator
      ensures queued == !old(invalidator.drawing) && invalidator.drawing == old(invalidator.drawing)
      ensures invalidator.dirtyViews == old(invalidator.dirtyViews) + {entity}
      ensures invalidator.dirty == (old(invalidator.dirty) || queued)
      ensures State() == if queued then Push(old(State()), Notify(entity)) else old(State())
    {
      invalidator.dirtyViews := invalidator.dirtyViews + {entity};
      if !invalidator.drawing {
        invalidator.dirty := true;
        PushEffect(Notify(entity));
        return true;
      }
      return false;
    }

    ghost function InvalidatorsOf(entity: nat): seq<Invalidator>
      reads this
    {
      if entity in invalidatorsByEntity then invalidatorsByEntity[entity] else []
    }

    method InvalidateEach(shownIn: seq<Invalidator>, entity: nat)
      modifies this`pendingEffects, this`pendingNotifications, this`pendingGlobalNotifications, shownIn
      ensures State() == if exists v <- shownIn :: !old(v.drawing) then Push(old(State()), Notify(entity))
                         else old(State())
      ensures forall v <- shownIn ::
                && entity in v.dirtyViews && v.drawing == old(v.drawing)
                && v.dirty == (old(v.dirty) || !v.drawing)
    {
      ghost var some := false;
      for i := 0 to |shownIn|
        invariant some ==> exists v <- shownIn :: !old(v.drawing)
        invariant forall k | 0 <= k < i :: !some ==> old(shownIn[k].drawing)
        invariant State() == if some then Push(old(State()), Notify(entity)) else old(State())
        invariant forall v <- shownIn :: v.drawing == old(v.drawing)
        invariant forall v <- shownIn :: v.dirty == old(v.dirty) || (v.dirty && !v.drawing)
        invariant forall k | 0 <= k < i :: entity in shownIn[k].dirtyViews && (shownIn[k].drawing || shownIn[k].dirty)
      {
        var queued := InvalidateView(shownIn[i], entity);
        some := some || queued;
      }
    }

    /** An entity shown nowhere, or in some window that is not being drawn, gets one notification queued; one shown
        only in windows being drawn gets none. Every window showing it is told to draw it again. */
    method NotifyEntity(entity: nat)
      modifies this`pendingEffects, this`pendingNotifications, this`pendingGlobalNotifications,
               this`invalidatorsByEntity, InvalidatorsOf(entity)
      ensures State() == if InvalidatorsOf(entity) == [] || exists v <- old(InvalidatorsOf(entity)) :: !old(v.drawing)
                         then Push(old(State()), Notify(entity)) else old(State())
      ensures InvalidatorsOf(entity) == old(InvalidatorsOf(entity))
      ensures forall x | x != entity :: (x in invalidatorsByEntity <==> x in old(invalidatorsByEntity))
                                        && InvalidatorsOf(x) == old(InvalidatorsOf(x))
      ensures forall v <- InvalidatorsOf(entity) ::
                && entity in v.dirtyViews && v.drawing == old(v.drawing)
                && v.dirty == (old(v.dirty) || !v.drawing)
    {
      var shownIn := if entity in invalidatorsByEntity then invalidatorsByEntity[entity] else [];
      invalidatorsByEntity := invalidatorsByEntity[entity := []];
      if shownIn == [] {
        PushEffect(Notify(entity));
      } else {
        InvalidateEach(shownIn, entity);
      }
      invalidatorsByEntity := invalidatorsByEntity[entity := shownIn];
    }

    /** Takes the front effect off the queue; a notification may be queued again from here on. */
    method PopEffect() returns (e: Effect)
      requires pendingEffects != []
      modifies this`pendingEffects, this`pendingNotifications, this`pendingGlobalNotifications
      ensures e == old(pendingEffects)[0] && State() == Pop(old(State()))
    {
      e := pendingEffects[0];
      pendingEffects := pendingEffects[1..];
      match e {
        case Notify(emitter) => pendingNotifications := pendingNotifications - {emitter};
        case NotifyGlobalObservers(globalType) =>
          pendingGlobalNotifications := pendingGlobalNotifications - {globalType};
        case _ =>
      }
    }

    /** Puts the carried callbacks back in front, last one first. */
    method RestoreCarry(carry: seq<Effect>)
      modifies this`pendingEffects
      ensures pendingEffects == carry + old(pendingEffects)
    {
      var i := |carry|;
      while i > 0
        invariant 0 <= i <= |carry|
        invariant pendingEffects == carry[i..] + old(pendingEffects)
      {
        i := i - 1;
        pendingEffects := [carry[i]] + pendingEffects;
      }
    }

    /** Releases what was dropped, checks the clock, applies the front effect or carries it, until the queue is empty
        or the deadline is past. What callbacks push in each turn is on the tape. */
    method FlushEffectsAt(scope: FlushScope, budget: Option<nat>, tape: seq<Reaction>) returns (exhausted: bool)
      modifies this`pendingEffects, this`pendingNotifications, this`pendingGlobalNotifications, this`history
      ensures var d := Drain(old(State()), [], tape, scope, budget);
              && State() == d.pending && exhausted == d.exhausted
              && history == old(history) + d.applied
    {
      ghost var whole := Drain(State(), [], tape, scope, budget);
      var carry: seq<Effect>, rest, left := [], tape, budget;
      ghost var done := [];
      exhausted := false;
      StartsWhole(State(), tape, scope, budget);
      while true
        invariant Completes(State(), carry, rest, scope, left, done, whole)
        invariant history == old(history) + done
        decreases |rest|, |pendingEffects|
      {
        ghost var before := State();
        if rest == [] { SilentAfterTape(before, rest); }
        PushEach(Released(rest));
        if left == Some(0) {
          exhausted := true;
          StopsWhole(before, carry, rest, scope, left, done, whole);
          break;
        }
        if pendingEffects == [] {
          StopsWhole(before, carry, rest, scope, left, done, whole);
          break;
        }
        ghost var q, budget := State(), left;
        left := if left.Some? then Some(left.value - 1) else None;
        var effect := PopEffect();
        if effect.Defer? && !scope.Admits(effect.placement) {
          HoldsOn(before, carry, rest, scope, budget, done, whole, q);
          carry := carry + [effect];
        } else {
          AppliesOn(before, carry, rest, scope, budget, done, whole, q);
          if rest == [] { SilentAfterTape(State(), rest); }
          history := history + [effect];
          done := done + [effect];
          PushEach(Handled(rest));
        }
        rest := NextTurn(rest);
      }
      RestoreCarry(carry);
    }

    /** One phase: the entry drain, the body, and the exit drain that leaves the phase's own placement alone. */
    method RunPhase(phase: FramePhase, s: F.PhaseScript)
      modifies this`pendingEffects, this`pendingNotifications, this`pendingGlobalNotifications, this`history,
               this`currentPhase, this`flushingEffects
      ensures World() == F.Play(old(World()), F.PhaseSteps(phase, s))
      ensures currentPhase == phase && flushingEffects == old(flushingEffects)
    {
      ghost var w := World();
      currentPhase := phase;
      var wasFlushing := flushingEffects;
      flushingEffects := true;
      var _ := FlushEffectsAt(Phase(phase), None, s.entry);
      ghost var w1 := World();
      F.PlayOne(w, F.Drains(Phase(phase), s.entry));
      PushEach(s.body);
      ghost var w2 := World();
      F.PlayOne(w1, F.Pushes(s.body));
      var _ := FlushEffectsAt(PhasePost(phase), None, s.exit);
      flushingEffects := wasFlushing;
      F.PlayOne(w2, F.Drains(PhasePost(phase), s.exit));
      PlayPhase(w, w1, w2, phase, s);
    }

    /** Phase `i` of the frame begun in `w`. */
    method RunPhaseOf(f: F.FrameScript, i: nat, phase: FramePhase, ghost w: F.Played)
      requires i < 7 && phase == F.PhaseAt(i) && Reached(w, f, i, World())
      modifies this`pendingEffects, this`pendingNotifications, this`pendingGlobalNotifications, this`history,
               this`currentPhase, this`flushingEffects
      ensures Reached(w, f, i + 1, World())
      ensures currentPhase == phase && flushingEffects == old(flushingEffects)
    {
      ReachesNext(w, f, i, World(), phase);
      RunPhase(phase, f.phases[i]);
    }

    /** The seven phases in order. */
    method RunPhases(f: F.FrameScript)
      requires f.Valid()
      modifies this`pendingEffects, this`pendingNotifications, this`pendingGlobalNotifications, this`history,
               this`currentPhase, this`flushingEffects
      ensures Reached(old(World()), f, 7, World())
      ensures flushingEffects == old(flushingEffects)
    {
      ghost var w := World();
      StartsFrame(w, f);
      RunPhaseOf(f, 0, PreFrame, w);
      RunPhaseOf(f, 1, AnimationTick, w);
      RunPhaseOf(f, 2, Build, w);
      RunPhaseOf(f, 3, Layout, w);
      RunPhaseOf(f, 4, Prepaint, w);
      RunPhaseOf(f, 5, Paint, w);
      RunPhaseOf(f, 6, PostFrame, w);
    }

    /** The closing drain: idle callbacks run, and no update they make flushes on its own. */
    method DrainIdle(tape: seq<Reaction>)
      modifies this`pendingEffects, this`pendingNotifications, this`pendingGlobalNotifications, this`history,
               this`flushingEffects
      ensures World() == F.Play(old(World()), [F.Drains(Phase(FramePhase.Idle), tape)])
      ensures flushingEffects == old(flushingEffects)
    {
      F.PlayOne(World(), F.Drains(Phase(FramePhase.Idle), tape));
      var wasFlushing := flushingEffects;
      flushingEffects := true;
      var _ := FlushEffectsAt(Phase(FramePhase.Idle), None, tape);
      flushingEffects := wasFlushing;
    }

    /** A whole frame for an open window; anything else is refused and leaves everything as it was. */
    method RunFrame(handle: nat, f: F.FrameScript) returns (ok: bool)
      requires f.Valid()
      modifies this`pendingEffects, this`pendingNotifications, this`pendingGlobalNotifications, this`history,
               this`currentPhase, this`flushingEffects
      ensures ok == (handle in windows)
      ensures ok ==> World() == F.Play(old(World()), F.FrameSteps(f)) && currentPhase == FramePhase.Idle
      ensures !ok ==> World() == old(World()) && currentPhase == old(currentPhase)
      ensures flushingEffects == old(flushingEffects)
    {
      if handle !in windows {
        return false;
      }
      ghost var w := World();
      RunPhases(f);
      ghost var w7 := World();
      currentPhase := FramePhase.Idle;
      DrainIdle(f.idle);
      EndsFrame(w, f, w7);
      return true;
    }
  }

  lemma {:induction false} PlayPhase(w: F.Played, w1: F.Played, w2: F.Played, phase: FramePhase, s: F.PhaseScript)
    requires w1 == F.Play(w, [F.Drains(Phase(phase), s.entry)]) && w2 == F.Play(w1, [F.Pushes(s.body)])
    ensures F.Play(w2, [F.Drains(PhasePost(phase), s.exit)]) == F.Play(w, F.PhaseSteps(phase, s))
  {
    var a, b, c := F.Drains(Phase(phase), s.entry), F.Pushes(s.body), F.Drains(PhasePost(phase), s.exit);
    F.PlayOn(w, [a], [b] + [c]);
    F.PlayOn(w1, [b], [c]);
    assert F.PhaseSteps(phase, s) == [a] + ([b] + [c]);
  }

  /** The first `i` phases of the frame begun in `w` lead to `now`. */
  ghost predicate Reached(w: F.Played, f: F.FrameScript, i: nat, now: F.Played) {
    f.Valid() && i <= 7 && now == F.Play(w, F.FrameSteps(f)[..3 * i])
  }

  lemma {:induction false} StartsFrame(w: F.Played, f: F.FrameScript)
    requires f.Valid()
    ensures Reached(w, f, 0, w)
  {
    assert F.FrameSteps(f)[..0] == [];
    assert w.history + F.AllApplied([]) == w.history;
  }

  lemma {:induction false} ReachesNext(w: F.Played, f: F.FrameScript, i: nat, now: F.Played, phase: FramePhase)
    requires Reached(w, f, i, now) && i < 7 && phase == F.PhaseAt(i)
    ensures Reached(w, f, i + 1, F.Play(now, F.PhaseSteps(phase, f.phases[i])))
  {
    var steps := F.FrameSteps(f);
    PhaseSlice(f, i);
    F.PlayOn(w, steps[..3 * i], F.PhaseSteps(phase, f.phases[i]));
  }

  lemma {:induction false} PhaseSlice(f: F.FrameScript, i: nat)
    requires f.Valid() && i < 7
    ensures F.FrameSteps(f)[..3 * (i + 1)] == F.FrameSteps(f)[..3 * i] + F.PhaseSteps(F.PhaseAt(i), f.phases[i])
  {
    var steps := F.FrameSteps(f);
    forall j: nat | j < 3 ensures steps[3 * i + j] == F.PhaseSteps(F.PhaseAt(i), f.phases[i])[j] {
      F.FrameStepAt(f, 3 * i + j);
      assert (3 * i + j) / 3 == i && (3 * i + j) % 3 == j;
    }
    assert steps[3 * i..3 * (i + 1)] == F.PhaseSteps(F.PhaseAt(i), f.phases[i]);
    assert steps[..3 * (i + 1)] == steps[..3 * i] + steps[3 * i..3 * (i + 1)];
  }

  lemma {:induction false} EndsFrame(w: F.Played, f: F.FrameScript, now: F.Played)
    requires Reached(w, f, 7, now)
    ensures F.Play(now, [F.Drains(Phase(FramePhase.Idle), f.idle)]) == F.Play(w, F.FrameSteps(f))
  {
    var steps := F.FrameSteps(f);
    assert steps == steps[..21] + [F.Drains(Phase(FramePhase.Idle), f.idle)];
    F.PlayOn(w, steps[..21], [F.Drains(Phase(FramePhase.Idle), f.idle)]);
  }

  // ----- the loop of the drain -----

  /** The drain of what is queued now, with `done` applied before, is the rest of the whole drain. */
  ghost predicate Completes(p: Pending, carry: seq<Effect>, tape: seq<Reaction>, scope: FlushScope, budget: Option<nat>,
                            done: seq<Effect>, whole: Drained) {
    var d := Drain(p, carry, tape, scope, budget);
    d.pending == whole.pending && d.exhausted == whole.exhausted && done + d.applied == whole.applied
  }

  lemma {:induction false} StartsWhole(p: Pending, tape: seq<Reaction>, scope: FlushScope, budget: Option<nat>)
    ensures Completes(p, [], tape, scope, budget, [], Drain(p, [], tape, scope, budget))
  {
  }

  lemma {:induction false} StopsWhole(p: Pending, carry: seq<Effect>, tape: seq<Reaction>, scope: FlushScope,
                                      budget: Option<nat>, done: seq<Effect>, whole: Drained)
    requires Completes(p, carry, tape, scope, budget, done, whole)
    requires budget == Some(0) || PushAll(p, Released(tape)).queue == []
    ensures whole.applied == done && whole.exhausted == (budget == Some(0))
    ensures var q := PushAll(p, Released(tape)); whole.pending == q.(queue := carry + q.queue)
  {
  }

  lemma {:induction false} HoldsOn(p: Pending, carry: seq<Effect>, tape: seq<Reaction>, scope: FlushScope,
                                   budget: Option<nat>, done: seq<Effect>, whole: Drained, q: Pending)
    requires Completes(p, carry, tape, scope, budget, done, whole)
    requires q == PushAll(p, Released(tape)) && budget != Some(0) && q.queue != []
    requires !EffectQueue.Drains(scope, q.queue[0])
    ensures Completes(Pop(q), carry + [q.queue[0]], NextTurn(tape), scope,
                      if budget.Some? then Some(budget.value - 1) else None, done, whole)
  {
  }

  lemma {:induction false} AppliesOn(p: Pending, carry: seq<Effect>, tape: seq<Reaction>, scope: FlushScope,
                                     budget: Option<nat>, done: seq<Effect>, whole: Drained, q: Pending)
    requires Completes(p, carry, tape, scope, budget, done, whole)
    requires q == PushAll(p, Released(tape)) && budget != Some(0) && q.queue != []
    requires EffectQueue.Drains(scope, q.queue[0])
    ensures Completes(PushAll(Pop(q), Handled(tape)), carry, NextTurn(tape), scope,
                      if budget.Some? then Some(budget.value - 1) else None, done + [q.queue[0]], whole)
  {
    var left := if budget.Some? then Some(budget.value - 1) else None;
    F.Associates(done, [q.queue[0]], Drain(PushAll(Pop(q), Handled(tape)), carry, NextTurn(tape), scope, left).applied);
  }
}

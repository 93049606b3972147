/** The queue of side effects: deduplicated notifications, and the drain that applies effects
    in order while holding back deferred callbacks whose place in the frame has not come. */
module EffectQueue {
  import opened Wrappers

  datatype FramePhase = Idle | PreFrame | AnimationTick | Build | Layout | Prepaint | Paint | PostFrame

  datatype DeferPlacement = EndOfUpdate | NextFrameStart | AtPostFrame | AtIdle

  datatype FlushScope = Legacy | Phase(boundary: FramePhase) | PhasePost(boundary: FramePhase) {
    predicate Admits(placement: DeferPlacement) {
      match this
      case Legacy => true
      case Phase(b) =>
        (match placement
         case EndOfUpdate => true
         case NextFrameStart => b == FramePhase.PreFrame
         case AtPostFrame => b == FramePhase.PostFrame
         case AtIdle => b == FramePhase.Idle)
      case PhasePost(_) => placement == EndOfUpdate
    }
  }

  /** Entities, types, events and callbacks are known by their ids. */
  datatype Effect =
    | Notify(emitter: nat)
    | Emit(emitter: nat, eventType: nat, event: nat)
    | RefreshWindows
    | NotifyGlobalObservers(globalType: nat)
    | Defer(placement: DeferPlacement, callback: nat)
    | EntityCreated(entity: nat, typeId: nat, window: Option<nat>)

  /** Deferred callbacks wait for their placement; everything else drains at once. */
  predicate Drains(scope: FlushScope, e: Effect) {
    e.Defer? ==> scope.Admits(e.placement)
  }

  /** The queue with the ids that have a notification in it. */
  datatype Pending = Pending(queue: seq<Effect>, notified: set<nat>, globals: set<nat>)

  predicate IsDuplicate(p: Pending, e: Effect) {
    (e.Notify? && e.emitter in p.notified) || (e.NotifyGlobalObservers? && e.globalType in p.globals)
  }

  function Push(p: Pending, e: Effect): Pending {
    if IsDuplicate(p, e) then p
    else
      Pending(p.queue + [e],
              if e.Notify? then p.notified + {e.emitter} else p.notified,
              if e.NotifyGlobalObservers? then p.globals + {e.globalType} else p.globals)
  }

  function PushAll(p: Pending, es: seq<Effect>): Pending
    decreases |es|
  {
    if es == [] then p else PushAll(Push(p, es[0]), es[1..])
  }

  /** Those of the effects pushed that are not duplicates. */
  ghost function Accepted(p: Pending, es: seq<Effect>): seq<Effect>
    decreases |es|
  {
    if es == [] then []
    else if IsDuplicate(p, es[0]) then Accepted(p, es[1..])
    else [es[0]] + Accepted(Push(p, es[0]), es[1..])
  }

  lemma {:induction false} QueueGrows(p: Pending, es: seq<Effect>)
    ensures PushAll(p, es).queue == p.queue + Accepted(p, es)
    ensures es == [] ==> PushAll(p, es) == p
    decreases |es|
  {
    if es != [] {
      QueueGrows(Push(p, es[0]), es[1..]);
    }
  }

  /** Takes the front effect off; a notification taken off may be queued again. */
  function Pop(p: Pending): Pending
    requires p.queue != []
  {
    var e := p.queue[0];
    Pending(p.queue[1..],
            if e.Notify? then p.notified - {e.emitter} else p.notified,
            if e.NotifyGlobalObservers? then p.globals - {e.globalType} else p.globals)
  }

  /** Everything callbacks do to the queue during one turn of the drain: what release observers push
      before the front is taken, and what the handlers of the applied effect push. */
  datatype Reaction = Reaction(released: seq<Effect>, applied: seq<Effect>)

  function Released(tape: seq<Reaction>): seq<Effect> {
    if tape == [] then [] else tape[0].released
  }

  function Handled(tape: seq<Reaction>): seq<Effect> {
    if tape == [] then [] else tape[0].applied
  }

  function NextTurn(tape: seq<Reaction>): seq<Reaction> {
    if tape == [] then [] else tape[1..]
  }

  lemma {:induction false} SilentAfterTape(p: Pending, tape: seq<Reaction>)
    requires tape == []
    ensures PushAll(p, Released(tape)) == p && PushAll(p, Handled(tape)) == p
  {
  }

  /** What a drain leaves, what it applied, what was enqueued meanwhile, how many effects it looked at,
      and whether its deadline cut it short. */
  datatype Drained = Drained(pending: Pending, applied: seq<Effect>, enqueued: seq<Effect>, looked: nat,
                             exhausted: bool)

  /** `budget` is the number of turns after which the clock is seen past the deadline, None without a deadline.
      Callbacks push what `tape` says, turn by turn, and nothing after its end: every drain that ends, whatever
      its callbacks are, is one of these. */
  ghost function Drain(p: Pending, carry: seq<Effect>, tape: seq<Reaction>, scope: FlushScope, budget: Option<nat>)
    : Drained
    decreases |tape|, |p.queue|
  {
    var added := Accepted(p, Released(tape));
    var q := PushAll(p, Released(tape));
    QueueGrows(p, Released(tape));
    if budget == Some(0) then Drained(q.(queue := carry + q.queue), [], added, 0, true)
    else if q.queue == [] then Drained(q.(queue := carry), [], added, 0, false)
    else
      var e := q.queue[0];
      var left := if budget.Some? then Some(budget.value - 1) else None;
      if !Drains(scope, e) then
        var d := Drain(Pop(q), carry + [e], NextTurn(tape), scope, left);
        d.(enqueued := added + d.enqueued, looked := d.looked + 1)
      else
        QueueGrows(Pop(q), Handled(tape));
        var d := Drain(PushAll(Pop(q), Handled(tape)), carry, NextTurn(tape), scope, left);
        d.(applied := [e] + d.applied, enqueued := added + Accepted(Pop(q), Handled(tape)) + d.enqueued,
           looked := d.looked + 1)
  }

  // ----- conservation and order -----

  ghost function Applicable(scope: FlushScope, es: seq<Effect>): seq<Effect> {
    if es == [] then []
    else if Drains(scope, es[0]) then [es[0]] + Applicable(scope, es[1..])
    else Applicable(scope, es[1..])
  }

  ghost function HeldBack(scope: FlushScope, es: seq<Effect>): seq<Effect> {
    if es == [] then []
    else if Drains(scope, es[0]) then HeldBack(scope, es[1..])
    else [es[0]] + HeldBack(scope, es[1..])
  }

  /** A drain with `all` before it, first to last, looked at a prefix of it, applied the admissible part of that in
      order, and left what it had carried, the inadmissible part in order, and the untouched suffix. */
  ghost predicate Splits(d: Drained, carry: seq<Effect>, all: seq<Effect>, scope: FlushScope) {
    && d.looked <= |all|
    && d.applied == Applicable(scope, all[..d.looked])
    && d.pending.queue == carry + HeldBack(scope, all[..d.looked]) + all[d.looked..]
    && (!d.exhausted ==> d.looked == |all|)
  }

  lemma {:induction false} SplitsNothing(d: Drained, carry: seq<Effect>, all: seq<Effect>, scope: FlushScope)
    requires d.looked == 0 && d.applied == [] && d.pending.queue == carry + all
    requires !d.exhausted ==> all == []
    ensures Splits(d, carry, all, scope)
  {
    assert all[..0] == [] && all[0..] == all;
    assert HeldBack(scope, all[..0]) == [];
  }

  lemma {:induction false} SplitsOneMore(e: Effect, d: Drained, before: Drained, carry: seq<Effect>,
                                         all: seq<Effect>, rest: seq<Effect>, scope: FlushScope)
    requires all != [] && all[0] == e && all[1..] == rest
    requires d.looked == before.looked + 1 && d.exhausted == before.exhausted && d.pending == before.pending
    requires d.applied == if Drains(scope, e) then [e] + before.applied else before.applied
    requires Splits(before, if Drains(scope, e) then carry else carry + [e], rest, scope)
    ensures Splits(d, carry, all, scope)
  {
    var some := all[..d.looked];
    assert some[0] == e && some[1..] == rest[..before.looked];
    assert all[d.looked..] == rest[before.looked..];
  }

  lemma {:induction false} SameOrder(was: seq<Effect>, added: seq<Effect>, e: Effect, rest: seq<Effect>,
                                     handled: seq<Effect>, later: seq<Effect>)
    requires was + added == [e] + rest
    ensures was + (added + handled + later) == [e] + (rest + handled + later)
    ensures was + (added + later) == [e] + (rest + later)
  {
    assert was + (added + handled + later) == (was + added) + handled + later;
    assert was + (added + later) == (was + added) + later;
  }

  lemma {:induction false} HoldingTurn(p: Pending, carry: seq<Effect>, tape: seq<Reaction>, scope: FlushScope,
                                       budget: Option<nat>, q: Pending, d: Drained)
    requires q == PushAll(p, Released(tape)) && budget != Some(0) && q.queue != [] && !Drains(scope, q.queue[0])
    requires d == Drain(Pop(q), carry + [q.queue[0]], NextTurn(tape), scope,
                        if budget.Some? then Some(budget.value - 1) else None)
    requires Splits(d, carry + [q.queue[0]], Pop(q).queue + d.enqueued, scope)
    ensures Splits(Drain(p, carry, tape, scope, budget), carry,
                   p.queue + Drain(p, carry, tape, scope, budget).enqueued, scope)
  {
    var whole := Drain(p, carry, tape, scope, budget);
    QueueGrows(p, Released(tape));
    SameOrder(p.queue, Accepted(p, Released(tape)), q.queue[0], q.queue[1..], [], d.enqueued);
    SplitsOneMore(q.queue[0], whole, d, carry, p.queue + whole.enqueued, Pop(q).queue + d.enqueued, scope);
  }

  lemma {:induction false} ApplyingTurn(p: Pending, carry: seq<Effect>, tape: seq<Reaction>, scope: FlushScope,
                                        budget: Option<nat>, q: Pending, next: Pending, d: Drained)
    requires q == PushAll(p, Released(tape)) && budget != Some(0) && q.queue != [] && Drains(scope, q.queue[0])
    requires next == PushAll(Pop(q), Handled(tape))
    requires d == Drain(next, carry, NextTurn(tape), scope, if budget.Some? then Some(budget.value - 1) else None)
    requires Splits(d, carry, next.queue + d.enqueued, scope)
    ensures Splits(Drain(p, carry, tape, scope, budget), carry,
                   p.queue + Drain(p, carry, tape, scope, budget).enqueued, scope)
  {
    var whole := Drain(p, carry, tape, scope, budget);
    QueueGrows(p, Released(tape));
    QueueGrows(Pop(q), Handled(tape));
    SameOrder(p.queue, Accepted(p, Released(tape)), q.queue[0], q.queue[1..], Accepted(Pop(q), Handled(tape)),
              d.enqueued);
    SplitsOneMore(q.queue[0], whole, d, carry, p.queue + whole.enqueued, next.queue + d.enqueued, scope);
  }

  /** All there is to a drain is what was queued at first and then what was enqueued meanwhile: each of these is
      applied once or left once, in order. Only a deadline leaves effects untouched. */
  lemma {:induction false} DrainSplits(p: Pending, carry: seq<Effect>, tape: seq<Reaction>, scope: FlushScope,
                                       budget: Option<nat>)
    ensures Splits(Drain(p, carry, tape, scope, budget), carry,
                   p.queue + Drain(p, carry, tape, scope, budget).enqueued, scope)
    decreases |tape|, |p.queue|
  {
    var q := PushAll(p, Released(tape));
    QueueGrows(p, Released(tape));
    if budget == Some(0) || q.queue == [] {
      var d := Drain(p, carry, tape, scope, budget);
      SplitsNothing(d, carry, p.queue + d.enqueued, scope);
    } else {
      var left := if budget.Some? then Some(budget.value - 1) else None;
      if Drains(scope, q.queue[0]) {
        QueueGrows(Pop(q), Handled(tape));
        var next := PushAll(Pop(q), Handled(tape));
        DrainSplits(next, carry, NextTurn(tape), scope, left);
        ApplyingTurn(p, carry, tape, scope, budget, q, next, Drain(next, carry, NextTurn(tape), scope, left));
      } else {
        var held := carry + [q.queue[0]];
        DrainSplits(Pop(q), held, NextTurn(tape), scope, left);
        HoldingTurn(p, carry, tape, scope, budget, q, Drain(Pop(q), held, NextTurn(tape), scope, left));
      }
    }
  }

  /** Only a deadline cuts a drain short, after as many effects as it allows. */
  lemma {:induction false} OnlyDeadlinesExhaust(p: Pending, carry: seq<Effect>, tape: seq<Reaction>,
                                                scope: FlushScope, budget: Option<nat>)
    ensures var d := Drain(p, carry, tape, scope, budget); d.exhausted ==> budget == Some(d.looked)
    decreases |tape|, |p.queue|
  {
    var q := PushAll(p, Released(tape));
    if tape == [] { SilentAfterTape(p, tape); }
    if budget != Some(0) && q.queue != [] {
      var left := if budget.Some? then Some(budget.value - 1) else None;
      if Drains(scope, q.queue[0]) {
        if tape == [] { SilentAfterTape(Pop(q), tape); }
        OnlyDeadlinesExhaust(PushAll(Pop(q), Handled(tape)), carry, NextTurn(tape), scope, left);
      } else {
        OnlyDeadlinesExhaust(Pop(q), carry + [q.queue[0]], NextTurn(tape), scope, left);
      }
    }
  }

  // ----- one notification an observer pass -----

  ghost function Times(es: seq<Effect>, e: Effect): nat {
    multiset(es)[e]
  }

  lemma {:induction false} TimesAdd(a: seq<Effect>, b: seq<Effect>, e: Effect)
    ensures Times(a + b, e) == Times(a, e) + Times(b, e)
  {
    assert multiset(a + b) == multiset(a) + multiset(b);
  }

  function Once(b: bool): nat { if b then 1 else 0 }

  ghost predicate QueuedOnce(p: Pending, x: nat) {
    && Times(p.queue, Notify(x)) == Once(x in p.notified)
    && Times(p.queue, NotifyGlobalObservers(x)) == Once(x in p.globals)
  }

  /** The queue holds a notification at most once, and exactly when its id is in the set beside it. */
  ghost predicate Deduplicated(p: Pending) {
    forall x: nat :: QueuedOnce(p, x)
  }

  lemma {:induction false} PushQueuesOnce(p: Pending, e: Effect, x: nat)
    requires QueuedOnce(p, x)
    ensures QueuedOnce(Push(p, e), x)
  {
    TimesAdd(p.queue, [e], Notify(x));
    TimesAdd(p.queue, [e], NotifyGlobalObservers(x));
  }

  lemma {:induction false} PushAllQueuesOnce(p: Pending, es: seq<Effect>, x: nat)
    requires QueuedOnce(p, x)
    ensures QueuedOnce(PushAll(p, es), x)
    decreases |es|
  {
    if es != [] {
      PushQueuesOnce(p, es[0], x);
      PushAllQueuesOnce(Push(p, es[0]), es[1..], x);
    }
  }

  lemma {:induction false} PushAllDeduplicates(p: Pending, es: seq<Effect>)
    requires Deduplicated(p)
    ensures Deduplicated(PushAll(p, es))
  {
    forall x: nat ensures QueuedOnce(PushAll(p, es), x) {
      assert QueuedOnce(p, x);
      PushAllQueuesOnce(p, es, x);
    }
  }

  /** After any pushes an entity has a notification queued exactly when it had one or was notified. */
  lemma {:induction false} PushAllNotifies(p: Pending, es: seq<Effect>, x: nat)
    ensures x in PushAll(p, es).notified <==> x in p.notified || Notify(x) in es
    ensures x in PushAll(p, es).globals <==> x in p.globals || NotifyGlobalObservers(x) in es
    decreases |es|
  {
    if es != [] {
      PushAllNotifies(Push(p, es[0]), es[1..], x);
      assert es == [es[0]] + es[1..];
    }
  }

  lemma {:induction false} PopQueuesOnce(p: Pending, x: nat)
    requires QueuedOnce(p, x) && p.queue != []
    ensures QueuedOnce(Pop(p), x)
  {
    assert p.queue == [p.queue[0]] + Pop(p).queue;
    TimesAdd([p.queue[0]], Pop(p).queue, Notify(x));
    TimesAdd([p.queue[0]], Pop(p).queue, NotifyGlobalObservers(x));
  }

  ghost predicate HoldsNo(es: seq<Effect>, x: nat) {
    Times(es, Notify(x)) == 0 && Times(es, NotifyGlobalObservers(x)) == 0
  }

  lemma {:induction false} CarryQueuesOnce(p: Pending, carry: seq<Effect>, x: nat)
    requires QueuedOnce(p, x) && HoldsNo(carry, x)
    ensures QueuedOnce(p.(queue := carry + p.queue), x)
  {
    TimesAdd(carry, p.queue, Notify(x));
    TimesAdd(carry, p.queue, NotifyGlobalObservers(x));
  }

  lemma {:induction false} CarryGrows(carry: seq<Effect>, e: Effect, x: nat)
    requires HoldsNo(carry, x) && e.Defer?
    ensures HoldsNo(carry + [e], x)
  {
    TimesAdd(carry, [e], Notify(x));
    TimesAdd(carry, [e], NotifyGlobalObservers(x));
  }

  lemma {:induction false} DrainQueuesOnce(p: Pending, carry: seq<Effect>, tape: seq<Reaction>, scope: FlushScope,
                                           budget: Option<nat>, x: nat)
    requires QueuedOnce(p, x) && HoldsNo(carry, x)
    ensures QueuedOnce(Drain(p, carry, tape, scope, budget).pending, x)
    decreases |tape|, |p.queue|
  {
    var q := PushAll(p, Released(tape));
    if tape == [] { SilentAfterTape(p, tape); }
    PushAllQueuesOnce(p, Released(tape), x);
    if budget == Some(0) || q.queue == [] {
      CarryQueuesOnce(q, carry, x);
    } else {
      var left := if budget.Some? then Some(budget.value - 1) else None;
      PopQueuesOnce(q, x);
      if Drains(scope, q.queue[0]) {
        if tape == [] { SilentAfterTape(Pop(q), tape); }
        PushAllQueuesOnce(Pop(q), Handled(tape), x);
        DrainQueuesOnce(PushAll(Pop(q), Handled(tape)), carry, NextTurn(tape), scope, left, x);
      } else {
        CarryGrows(carry, q.queue[0], x);
        DrainQueuesOnce(Pop(q), carry + [q.queue[0]], NextTurn(tape), scope, left, x);
      }
    }
  }

  /** Drains keep the queue and the sets in step, restored callbacks included. */
  lemma {:induction false} DrainDeduplicates(p: Pending, tape: seq<Reaction>, scope: FlushScope, budget: Option<nat>)
    requires Deduplicated(p)
    ensures Deduplicated(Drain(p, [], tape, scope, budget).pending)
  {
    forall x: nat ensures QueuedOnce(Drain(p, [], tape, scope, budget).pending, x) {
      assert QueuedOnce(p, x);
      DrainQueuesOnce(p, [], tape, scope, budget, x);
    }
  }

  // ----- nothing pushed is lost -----

  predicate IsNotification(e: Effect) {
    e.Notify? || e.NotifyGlobalObservers?
  }

  /** Every effect that is no notification is queued as often as it is pushed. */
  lemma {:induction false} PushesAreQueued(p: Pending, es: seq<Effect>, e: Effect)
    requires !IsNotification(e)
    ensures Times(Accepted(p, es), e) == Times(es, e)
    ensures Times(PushAll(p, es).queue, e) == Times(p.queue, e) + Times(es, e)
    decreases |es|
  {
    if es != [] {
      var first, next := es[0], Push(p, es[0]);
      PushesAreQueued(next, es[1..], e);
      assert es == [first] + es[1..];
      TimesAdd([first], es[1..], e);
      TimesAdd([first], Accepted(next, es[1..]), e);
      TimesAdd(p.queue, [first], e);
    }
  }

  /** A notification is queued once if its id was not in the set and it is pushed at all, and else not again. */
  lemma {:induction false} NotificationsAreQueuedOnce(p: Pending, es: seq<Effect>, x: nat)
    requires Deduplicated(p)
    ensures Times(PushAll(p, es).queue, Notify(x)) == Once(x in p.notified || Notify(x) in es)
    ensures Times(PushAll(p, es).queue, NotifyGlobalObservers(x))
            == Once(x in p.globals || NotifyGlobalObservers(x) in es)
  {
    PushAllDeduplicates(p, es);
    PushAllNotifies(p, es, x);
    assert QueuedOnce(PushAll(p, es), x);
  }

  /** How often the effect is pushed in a drain that looks at these effects, one a turn: by releases in every turn and
      in the last one, and by the handlers of each effect applied. */
  ghost function Pushed(tape: seq<Reaction>, scope: FlushScope, looks: seq<Effect>, e: Effect): nat
    decreases |looks|
  {
    (if tape == [] then 0 else Times(tape[0].released, e)) +
    if looks == [] then 0
    else
      (if tape != [] && Drains(scope, looks[0]) then Times(tape[0].applied, e) else 0)
      + Pushed(if tape == [] then [] else tape[1..], scope, looks[1..], e)
  }

  ghost predicate Enqueues(d: Drained, all: seq<Effect>, tape: seq<Reaction>, scope: FlushScope, e: Effect) {
    d.looked <= |all| && Times(d.enqueued, e) == Pushed(tape, scope, all[..d.looked], e)
  }

  lemma {:induction false} EnqueuesTurn(d: Drained, all: seq<Effect>, tape: seq<Reaction>, scope: FlushScope, e: Effect,
                                        rest: Drained, left: seq<Effect>, released: nat, handled: nat)
    requires all != [] && all[1..] == left && d.looked == rest.looked + 1
    requires Enqueues(rest, left, if tape == [] then [] else tape[1..], scope, e)
    requires released == if tape == [] then 0 else Times(tape[0].released, e)
    requires handled == if tape != [] && Drains(scope, all[0]) then Times(tape[0].applied, e) else 0
    requires Times(d.enqueued, e) == released + handled + Times(rest.enqueued, e)
    ensures Enqueues(d, all, tape, scope, e)
  {
    var looks := all[..d.looked];
    assert looks[0] == all[0] && looks[1..] == left[..rest.looked];
  }

  lemma {:induction false} TurnsAreThoseOfTape(tape: seq<Reaction>)
    ensures tape == [] ==> Released(tape) == [] && Handled(tape) == [] && NextTurn(tape) == []
    ensures tape != [] ==> Released(tape) == tape[0].released && Handled(tape) == tape[0].applied
                           && NextTurn(tape) == tape[1..]
  {
  }

  /** A drain enqueues everything its callbacks push that is no notification, and nothing else: whatever is pushed in
      some turn is applied or left. */
  lemma {:induction false} DrainEnqueuesPushes(p: Pending, carry: seq<Effect>, tape: seq<Reaction>, scope: FlushScope,
                                               budget: Option<nat>, e: Effect)
    requires !IsNotification(e)
    ensures var d := Drain(p, carry, tape, scope, budget); Enqueues(d, p.queue + d.enqueued, tape, scope, e)
    decreases |tape|, |p.queue|, 1
  {
    var d := Drain(p, carry, tape, scope, budget);
    var q, added := PushAll(p, Released(tape)), Accepted(p, Released(tape));
    QueueGrows(p, Released(tape));
    PushesAreQueued(p, Released(tape), e);
    TurnsAreThoseOfTape(tape);
    if budget == Some(0) || q.queue == [] {
      assert d.looked == 0 && (p.queue + d.enqueued)[..0] == [];
    } else {
      var front := q.queue[0];
      var left := if budget.Some? then Some(budget.value - 1) else None;
      if Drains(scope, front) {
        ApplyingEnqueues(p, carry, tape, scope, budget, e, q, PushAll(Pop(q), Handled(tape)), left);
      } else {
        HoldingEnqueues(p, carry, tape, scope, budget, e, q, left);
      }
    }
  }

  lemma {:induction false} TimesAddThree(a: seq<Effect>, b: seq<Effect>, c: seq<Effect>, e: Effect)
    ensures Times(a + b + c, e) == Times(a, e) + Times(b, e) + Times(c, e)
  {
    TimesAdd(a + b, c, e);
    TimesAdd(a, b, e);
  }

  lemma {:induction false} ApplyingCounts(p: Pending, tape: seq<Reaction>, q: Pending, e: Effect, d: Drained,
                                          rest: Drained)
    requires !IsNotification(e) && q == PushAll(p, Released(tape)) && q.queue != []
    requires d.enqueued == Accepted(p, Released(tape)) + Accepted(Pop(q), Handled(tape)) + rest.enqueued
    ensures Times(d.enqueued, e) == Times(Released(tape), e) + Times(Handled(tape), e) + Times(rest.enqueued, e)
  {
    TimesAddThree(Accepted(p, Released(tape)), Accepted(Pop(q), Handled(tape)), rest.enqueued, e);
    PushesAreQueued(p, Released(tape), e);
    PushesAreQueued(Pop(q), Handled(tape), e);
  }

  lemma {:induction false} ApplyingOrder(p: Pending, tape: seq<Reaction>, q: Pending, d: Drained, rest: Drained)
    requires q == PushAll(p, Released(tape)) && q.queue != []
    requires d.enqueued == Accepted(p, Released(tape)) + Accepted(Pop(q), Handled(tape)) + rest.enqueued
    ensures p.queue + d.enqueued == [q.queue[0]] + (PushAll(Pop(q), Handled(tape)).queue + rest.enqueued)
  {
    QueueGrows(p, Released(tape));
    QueueGrows(Pop(q), Handled(tape));
    SameOrder(p.queue, Accepted(p, Released(tape)), q.queue[0], q.queue[1..], Accepted(Pop(q), Handled(tape)),
              rest.enqueued);
  }

  lemma {:induction false} ApplyingEnqueues(p: Pending, carry: seq<Effect>, tape: seq<Reaction>, scope: FlushScope,
                                            budget: Option<nat>, e: Effect, q: Pending, next: Pending,
                                            left: Option<nat>)
    requires !IsNotification(e) && q == PushAll(p, Released(tape)) && q.queue != [] && budget != Some(0)
    requires Drains(scope, q.queue[0]) && next == PushAll(Pop(q), Handled(tape))
    requires left == if budget.Some? then Some(budget.value - 1) else None
    ensures var d := Drain(p, carry, tape, scope, budget); Enqueues(d, p.queue + d.enqueued, tape, scope, e)
    decreases |tape|, |p.queue|, 0
  {
    var d, rest := Drain(p, carry, tape, scope, budget), Drain(next, carry, NextTurn(tape), scope, left);
    TurnsAreThoseOfTape(tape);
    if tape == [] {
      SilentAfterTape(p, tape);
      SilentAfterTape(Pop(q), tape);
    }
    DrainEnqueuesPushes(next, carry, NextTurn(tape), scope, left, e);
    ApplyingCounts(p, tape, q, e, d, rest);
    ApplyingOrder(p, tape, q, d, rest);
    EnqueuesTurn(d, p.queue + d.enqueued, tape, scope, e, rest, next.queue + rest.enqueued, Times(Released(tape), e),
                 Times(Handled(tape), e));
  }

  lemma {:induction false} HoldingEnqueues(p: Pending, carry: seq<Effect>, tape: seq<Reaction>, scope: FlushScope,
                                           budget: Option<nat>, e: Effect, q: Pending, left: Option<nat>)
    requires !IsNotification(e) && q == PushAll(p, Released(tape)) && q.queue != [] && budget != Some(0)
    requires !Drains(scope, q.queue[0])
    requires left == if budget.Some? then Some(budget.value - 1) else None
    ensures var d := Drain(p, carry, tape, scope, budget); Enqueues(d, p.queue + d.enqueued, tape, scope, e)
    decreases |tape|, |p.queue|, 0
  {
    var d := Drain(p, carry, tape, scope, budget);
    var rest := Drain(Pop(q), carry + [q.queue[0]], NextTurn(tape), scope, left);
    var added := Accepted(p, Released(tape));
    QueueGrows(p, Released(tape));
    PushesAreQueued(p, Released(tape), e);
    TurnsAreThoseOfTape(tape);
    DrainEnqueuesPushes(Pop(q), carry + [q.queue[0]], NextTurn(tape), scope, left, e);
    TimesAdd(added, rest.enqueued, e);
    SameOrder(p.queue, added, q.queue[0], q.queue[1..], [], rest.enqueued);
    EnqueuesTurn(d, p.queue + d.enqueued, tape, scope, e, rest, Pop(q).queue + rest.enqueued, Times(added, e), 0);
  }

  /** What a drain sorts out: an effect it looks at is applied if it is no callback or its placement is admitted, and
      else held back, each time it occurs. */
  lemma {:induction false} SortingKeepsTimes(scope: FlushScope, es: seq<Effect>, e: Effect)
    ensures Times(Applicable(scope, es), e) == if !e.Defer? || scope.Admits(e.placement) then Times(es, e) else 0
    ensures Times(HeldBack(scope, es), e) == if !e.Defer? || scope.Admits(e.placement) then 0 else Times(es, e)
    decreases |es|
  {
    if es != [] {
      SortingKeepsTimes(scope, es[1..], e);
      assert es == [es[0]] + es[1..];
      TimesAdd([es[0]], es[1..], e);
      TimesAdd([es[0]], Applicable(scope, es[1..]), e);
      TimesAdd([es[0]], HeldBack(scope, es[1..]), e);
    }
  }

  lemma {:induction false} ApplicableKeepsDrained(scope: FlushScope, es: seq<Effect>, e: Effect)
    requires Drains(scope, e)
    ensures Times(Applicable(scope, es), e) == Times(es, e)
    decreases |es|
  {
    if es != [] {
      ApplicableKeepsDrained(scope, es[1..], e);
      assert es == [es[0]] + es[1..];
      TimesAdd([es[0]], es[1..], e);
      TimesAdd([es[0]], Applicable(scope, es[1..]), e);
    }
  }

  /** Whatever is notified, however often and whatever is pushed in between, a drain without a deadline runs the
      entity's observers once for all of it, plus once for each notification they newly queue meanwhile. */
  lemma {:induction false} OneObserverPass(p: Pending, es: seq<Effect>, tape: seq<Reaction>, scope: FlushScope, x: nat)
    requires Deduplicated(p)
    ensures var d := Drain(PushAll(p, es), [], tape, scope, None);
            Times(d.applied, Notify(x)) == Once(x in p.notified || Notify(x) in es) + Times(d.enqueued, Notify(x))
  {
    var q := PushAll(p, es);
    var d := Drain(q, [], tape, scope, None);
    PushAllDeduplicates(p, es);
    PushAllNotifies(p, es, x);
    assert QueuedOnce(q, x);
    DrainSplits(q, [], tape, scope, None);
    OnlyDeadlinesExhaust(q, [], tape, scope, None);
    var all := q.queue + d.enqueued;
    assert all[..|all|] == all;
    ApplicableKeepsDrained(scope, all, Notify(x));
    TimesAdd(q.queue, d.enqueued, Notify(x));
  }
}

/** A frame: seven phases, each a drain on entry, a body that pushes effects, and a drain on exit, and a closing
    idle drain. Where a deferred callback runs is decided by its placement and by when it was queued. */
module Frames {
  import opened Wrappers
  import opened EffectQueue

  /** What happens to the queue: pushes from outside a drain, or a drain. */
  datatype Step = Pushes(es: seq<Effect>) | Drains(scope: FlushScope, tape: seq<Reaction>)

  datatype StepLog = StepLog(enqueued: seq<Effect>, applied: seq<Effect>)

  predicate LeavesAlone(s: Step, e: Effect) {
    s.Drains? ==> !EffectQueue.Drains(s.scope, e)
  }

  ghost function After(p: Pending, s: Step): Pending {
    if s.Pushes? then PushAll(p, s.es) else Drain(p, [], s.tape, s.scope, None).pending
  }

  ghost function LogOf(p: Pending, s: Step): StepLog {
    if s.Pushes? then StepLog(Accepted(p, s.es), [])
    else
      var d := Drain(p, [], s.tape, s.scope, None);
      StepLog(d.enqueued, d.applied)
  }

  ghost function Outcome(p: Pending, steps: seq<Step>): Pending
    decreases |steps|
  {
    if steps == [] then p else Outcome(After(p, steps[0]), steps[1..])
  }

  ghost function Logs(p: Pending, steps: seq<Step>): (logs: seq<StepLog>)
    ensures |logs| == |steps|
    decreases |steps|
  {
    if steps == [] then [] else [LogOf(p, steps[0])] + Logs(After(p, steps[0]), steps[1..])
  }

  // ----- what a run of steps leaves -----

  /** No drain among the steps takes the effect. */
  predicate Survives(steps: seq<Step>, e: Effect) {
    forall s <- steps :: LeavesAlone(s, e)
  }

  ghost function Kept(steps: seq<Step>, es: seq<Effect>): seq<Effect>
    decreases |es|
  {
    if es == [] then []
    else if Survives(steps, es[0]) then [es[0]] + Kept(steps, es[1..])
    else Kept(steps, es[1..])
  }

  /** What is left of the effects enqueued during the steps: each must survive the drains from its own step on. */
  ghost function Remains(steps: seq<Step>, logs: seq<StepLog>): seq<Effect>
    requires |logs| == |steps|
    decreases |steps|
  {
    if steps == [] then []
    else Kept(steps, logs[0].enqueued) + Remains(steps[1..], logs[1..])
  }

  lemma {:induction false} KeptAdds(steps: seq<Step>, a: seq<Effect>, b: seq<Effect>)
    ensures Kept(steps, a + b) == Kept(steps, a) + Kept(steps, b)
    decreases |a|
  {
    if a == [] {
      assert a + b == b;
    } else {
      assert (a + b)[1..] == a[1..] + b;
      KeptAdds(steps, a[1..], b);
    }
  }

  lemma {:induction false} SurvivesSplit(steps: seq<Step>, e: Effect)
    requires steps != []
    ensures Survives(steps, e) <==> LeavesAlone(steps[0], e) && Survives(steps[1..], e)
  {
    assert steps == [steps[0]] + steps[1..];
  }

  lemma {:induction false} KeptAfterDrain(steps: seq<Step>, es: seq<Effect>)
    requires steps != [] && steps[0].Drains?
    ensures Kept(steps[1..], HeldBack(steps[0].scope, es)) == Kept(steps, es)
    decreases |es|
  {
    if es != [] {
      SurvivesSplit(steps, es[0]);
      KeptAfterDrain(steps, es[1..]);
    }
  }

  lemma {:induction false} KeptAfterPushes(steps: seq<Step>, es: seq<Effect>)
    requires steps != [] && steps[0].Pushes?
    ensures Kept(steps[1..], es) == Kept(steps, es)
    decreases |es|
  {
    if es != [] {
      SurvivesSplit(steps, es[0]);
      KeptAfterPushes(steps, es[1..]);
    }
  }

  lemma {:induction false} WholeDrainSorts(d: Drained, all: seq<Effect>, scope: FlushScope)
    requires Splits(d, [], all, scope) && !d.exhausted
    ensures d.applied == Applicable(scope, all) && d.pending.queue == HeldBack(scope, all)
  {
    assert all[..d.looked] == all;
    assert all[d.looked..] == [];
  }

  /** One drain without a deadline: everything admissible is applied in order, everything else is left in order. */
  lemma {:induction false} DrainSorts(p: Pending, tape: seq<Reaction>, scope: FlushScope)
    ensures var d := Drain(p, [], tape, scope, None);
            && d.applied == Applicable(scope, p.queue + d.enqueued)
            && d.pending.queue == HeldBack(scope, p.queue + d.enqueued)
  {
    DrainSplits(p, [], tape, scope, None);
    OnlyDeadlinesExhaust(p, [], tape, scope, None);
    var d := Drain(p, [], tape, scope, None);
    WholeDrainSorts(d, p.queue + d.enqueued, scope);
  }

  lemma {:induction false} NothingKeepsAll(es: seq<Effect>)
    ensures Kept([], es) == es
    decreases |es|
  {
    if es != [] { NothingKeepsAll(es[1..]); }
  }

  lemma {:induction false} StepLeaves(p: Pending, steps: seq<Step>)
    requires steps != []
    ensures Kept(steps[1..], After(p, steps[0]).queue)
            == Kept(steps, p.queue) + Kept(steps, LogOf(p, steps[0]).enqueued)
  {
    var log := LogOf(p, steps[0]);
    if steps[0].Pushes? {
      QueueGrows(p, steps[0].es);
      KeptAfterPushes(steps, p.queue + log.enqueued);
    } else {
      DrainSorts(p, steps[0].tape, steps[0].scope);
      KeptAfterDrain(steps, p.queue + log.enqueued);
    }
    KeptAdds(steps, p.queue, log.enqueued);
  }

  lemma {:induction false} LogsTail(p: Pending, steps: seq<Step>)
    requires steps != []
    ensures Logs(p, steps)[0] == LogOf(p, steps[0])
    ensures Logs(p, steps)[1..] == Logs(After(p, steps[0]), steps[1..])
  {
  }

  lemma {:induction false} RemainsTail(p: Pending, steps: seq<Step>)
    requires steps != []
    ensures Remains(steps, Logs(p, steps))
            == Kept(steps, LogOf(p, steps[0]).enqueued) + Remains(steps[1..], Logs(After(p, steps[0]), steps[1..]))
  {
    LogsTail(p, steps);
  }

  lemma {:induction false} Associates(a: seq<Effect>, b: seq<Effect>, c: seq<Effect>)
    ensures a + b + c == a + (b + c)
  {
  }

  lemma {:induction false} NoStepsLeave(p: Pending)
    ensures Outcome(p, []).queue == Kept([], p.queue) + Remains([], Logs(p, []))
  {
    NothingKeepsAll(p.queue);
  }

  /** After any steps the queue is, in queue order, what was there at first and no step took, followed by what was
      enqueued meanwhile and no step from there on took. */
  lemma {:induction false} StepsLeave(p: Pending, steps: seq<Step>)
    ensures Outcome(p, steps).queue == Kept(steps, p.queue) + Remains(steps, Logs(p, steps))
    decreases |steps|
  {
    if steps == [] {
      NoStepsLeave(p);
    } else {
      var next := After(p, steps[0]);
      StepLeaves(p, steps);
      StepsLeave(next, steps[1..]);
      RemainsTail(p, steps);
      Associates(Kept(steps, p.queue), Kept(steps, LogOf(p, steps[0]).enqueued),
                 Remains(steps[1..], Logs(next, steps[1..])));
    }
  }

  // ----- callbacks of one placement -----

  ghost function Placed(pl: DeferPlacement, es: seq<Effect>): seq<Effect>
    decreases |es|
  {
    if es == [] then []
    else if es[0].Defer? && es[0].placement == pl then [es[0]] + Placed(pl, es[1..])
    else Placed(pl, es[1..])
  }

  ghost function Sent(pl: DeferPlacement, logs: seq<StepLog>): seq<Effect>
    decreases |logs|
  {
    if logs == [] then [] else Placed(pl, logs[0].enqueued) + Sent(pl, logs[1..])
  }

  /** None of the steps logged ran a callback of the placement. */
  ghost predicate Idles(pl: DeferPlacement, logs: seq<StepLog>) {
    forall log <- logs :: Placed(pl, log.applied) == []
  }

  lemma {:induction false} PlacedAdds(pl: DeferPlacement, a: seq<Effect>, b: seq<Effect>)
    ensures Placed(pl, a + b) == Placed(pl, a) + Placed(pl, b)
    decreases |a|
  {
    if a == [] {
      assert a + b == b;
    } else {
      assert (a + b)[1..] == a[1..] + b;
      PlacedAdds(pl, a[1..], b);
    }
  }

  lemma {:induction false} SentAdds(pl: DeferPlacement, a: seq<StepLog>, b: seq<StepLog>)
    ensures Sent(pl, a + b) == Sent(pl, a) + Sent(pl, b)
    decreases |a|
  {
    if a == [] {
      assert a + b == b;
    } else {
      assert (a + b)[1..] == a[1..] + b;
      SentAdds(pl, a[1..], b);
      Associates(Placed(pl, a[0].enqueued), Sent(pl, a[1..]), Sent(pl, b));
    }
  }

  lemma {:induction false} SentGrows(pl: DeferPlacement, logs: seq<StepLog>, k: nat)
    requires k < |logs|
    ensures Sent(pl, logs[..k + 1]) == Sent(pl, logs[..k]) + Placed(pl, logs[k].enqueued)
  {
    assert logs[..k + 1] == logs[..k] + [logs[k]];
    SentAdds(pl, logs[..k], [logs[k]]);
    assert Sent(pl, [logs[k]]) == Placed(pl, logs[k].enqueued) + [];
  }

  lemma {:induction false} DrainPlaces(scope: FlushScope, pl: DeferPlacement, es: seq<Effect>)
    ensures Placed(pl, Applicable(scope, es)) == if scope.Admits(pl) then Placed(pl, es) else []
    ensures Placed(pl, HeldBack(scope, es)) == if scope.Admits(pl) then [] else Placed(pl, es)
    decreases |es|
  {
    if es != [] {
      DrainPlaces(scope, pl, es[1..]);
    }
  }

  predicate Closed(s: Step, pl: DeferPlacement) {
    s.Drains? ==> !s.scope.Admits(pl)
  }

  predicate AllClosed(steps: seq<Step>, pl: DeferPlacement) {
    forall s <- steps :: Closed(s, pl)
  }

  lemma {:induction false} ClosedStepKeeps(p: Pending, s: Step, pl: DeferPlacement)
    requires Closed(s, pl)
    ensures Placed(pl, After(p, s).queue) == Placed(pl, p.queue) + Placed(pl, LogOf(p, s).enqueued)
    ensures Placed(pl, LogOf(p, s).applied) == []
  {
    PlacedAdds(pl, p.queue, LogOf(p, s).enqueued);
    if s.Pushes? {
      QueueGrows(p, s.es);
    } else {
      DrainSorts(p, s.tape, s.scope);
      DrainPlaces(s.scope, pl, p.queue + LogOf(p, s).enqueued);
    }
  }

  lemma {:induction false} OpenStepRuns(p: Pending, s: Step, pl: DeferPlacement)
    requires !Closed(s, pl)
    ensures Placed(pl, After(p, s).queue) == []
    ensures Placed(pl, LogOf(p, s).applied) == Placed(pl, p.queue) + Placed(pl, LogOf(p, s).enqueued)
  {
    PlacedAdds(pl, p.queue, LogOf(p, s).enqueued);
    DrainSorts(p, s.tape, s.scope);
    DrainPlaces(s.scope, pl, p.queue + LogOf(p, s).enqueued);
  }

  lemma {:induction false} ClosedStepsKeep(p: Pending, steps: seq<Step>, pl: DeferPlacement)
    requires AllClosed(steps, pl)
    ensures Placed(pl, Outcome(p, steps).queue) == Placed(pl, p.queue) + Sent(pl, Logs(p, steps))
    ensures Idles(pl, Logs(p, steps))
    decreases |steps|
  {
    if steps != [] {
      ClosedStepKeeps(p, steps[0], pl);
      LogsTail(p, steps);
      var next := After(p, steps[0]);
      ClosedStepsKeep(next, steps[1..], pl);
      Associates(Placed(pl, p.queue), Placed(pl, LogOf(p, steps[0]).enqueued), Sent(pl, Logs(next, steps[1..])));
      IdlesGrows(pl, Logs(p, steps));
    }
  }

  lemma {:induction false} IdlesGrows(pl: DeferPlacement, logs: seq<StepLog>)
    requires logs != [] && Placed(pl, logs[0].applied) == [] && Idles(pl, logs[1..])
    ensures Idles(pl, logs)
  {
    assert logs == [logs[0]] + logs[1..];
  }

  lemma {:induction false} StepsCompose(p: Pending, steps: seq<Step>, k: nat)
    requires k <= |steps|
    ensures Outcome(p, steps) == Outcome(Outcome(p, steps[..k]), steps[k..])
    ensures Logs(p, steps)[..k] == Logs(p, steps[..k])
    ensures Logs(p, steps)[k..] == Logs(Outcome(p, steps[..k]), steps[k..])
    decreases |steps|
  {
    if k == 0 {
      assert steps[..0] == [] && steps[0..] == steps;
    } else {
      var next := After(p, steps[0]);
      StepsCompose(next, steps[1..], k - 1);
      assert steps[1..][..k - 1] == steps[..k][1..];
      assert steps[1..][k - 1..] == steps[k..];
      LogsTail(p, steps);
      LogsTail(p, steps[..k]);
      var logs, rest := Logs(p, steps), Logs(next, steps[1..]);
      assert logs == [LogOf(p, steps[0])] + rest;
      assert logs[..k] == [LogOf(p, steps[0])] + rest[..k - 1];
      assert logs[k..] == rest[k - 1..];
    }
  }

  // ----- one frame -----

  datatype PhaseScript = PhaseScript(entry: seq<Reaction>, body: seq<Effect>, exit: seq<Reaction>)

  /** What callbacks push during one frame: in each of the seven phases and in the closing idle drain. */
  datatype FrameScript = FrameScript(phases: seq<PhaseScript>, idle: seq<Reaction>) {
    predicate Valid() { |phases| == 7 }
  }

  function PhaseAt(i: nat): FramePhase
    requires i < 7
  {
    [PreFrame, AnimationTick, Build, Layout, Prepaint, Paint, PostFrame][i]
  }

  function PhaseSteps(phase: FramePhase, s: PhaseScript): seq<Step> {
    [Drains(Phase(phase), s.entry), Pushes(s.body), Drains(PhasePost(phase), s.exit)]
  }

  function PhasesFrom(f: FrameScript, i: nat): (steps: seq<Step>)
    requires f.Valid() && i <= 7
    ensures |steps| == 3 * (7 - i)
    decreases 7 - i
  {
    if i == 7 then [] else PhaseSteps(PhaseAt(i), f.phases[i]) + PhasesFrom(f, i + 1)
  }

  /** Entry drain, body and exit drain of every phase in order, then the idle drain. */
  function FrameSteps(f: FrameScript): (steps: seq<Step>)
    requires f.Valid()
    ensures |steps| == 22
  {
    PhasesFrom(f, 0) + [Drains(Phase(FramePhase.Idle), f.idle)]
  }

  lemma {:induction false} PhasesFromAt(f: FrameScript, i: nat, phase: nat, j: nat)
    requires f.Valid() && i <= phase < 7 && j < 3
    ensures PhasesFrom(f, i)[3 * (phase - i) + j] == PhaseSteps(PhaseAt(phase), f.phases[phase])[j]
    decreases 7 - i
  {
    var steps := PhaseSteps(PhaseAt(i), f.phases[i]);
    assert PhasesFrom(f, i) == steps + PhasesFrom(f, i + 1);
    if i < phase {
      PhasesFromAt(f, i + 1, phase, j);
      assert 3 * (phase - i) + j - 3 == 3 * (phase - (i + 1)) + j;
    }
  }

  /** The step whose drain runs callbacks of the placement; end-of-update callbacks run in all of them. */
  function Gate(pl: DeferPlacement): nat
    requires pl != EndOfUpdate
  {
    match pl
    case NextFrameStart => 0
    case AtPostFrame => 18
    case AtIdle => 21
  }

  lemma {:induction false} FrameStepAt(f: FrameScript, k: nat)
    requires f.Valid() && k < 21
    ensures FrameSteps(f)[k] == PhaseSteps(PhaseAt(k / 3), f.phases[k / 3])[k % 3]
  {
    PhasesFromAt(f, 0, k / 3, k % 3);
    assert FrameSteps(f)[k] == PhasesFrom(f, 0)[k];
  }

  lemma {:induction false} PhaseStepAdmits(i: nat, j: nat, s: PhaseScript, pl: DeferPlacement)
    requires i < 7 && j < 3 && pl != EndOfUpdate
    ensures Closed(PhaseSteps(PhaseAt(i), s)[j], pl) <==> 3 * i + j != Gate(pl)
  {
  }

  lemma {:induction false} GateIsTheOnlyOpening(f: FrameScript, pl: DeferPlacement, k: nat)
    requires f.Valid() && pl != EndOfUpdate && k < 22
    ensures Closed(FrameSteps(f)[k], pl) <==> k != Gate(pl)
  {
    if k < 21 {
      FrameStepAt(f, k);
      PhaseStepAdmits(k / 3, k % 3, f.phases[k / 3], pl);
    }
  }

  /** The callbacks of the placement enqueued after the gate drain of the frame logged. */
  ghost function TooLate(pl: DeferPlacement, logs: seq<StepLog>): seq<Effect>
    requires pl != EndOfUpdate && |logs| == 22
  {
    Sent(pl, logs[Gate(pl) + 1..])
  }

  /** What was waiting and what was enqueued up to the end of the gate drain runs there, in this order; no other step
      runs any callback of the placement. */
  ghost predicate RunsAtGate(pl: DeferPlacement, waiting: seq<Effect>, logs: seq<StepLog>) {
    && pl != EndOfUpdate && |logs| == 22
    && Idles(pl, logs[..Gate(pl)])
    && Placed(pl, logs[Gate(pl)].applied) == waiting + Sent(pl, logs[..Gate(pl) + 1])
    && Idles(pl, logs[Gate(pl) + 1..])
  }

  lemma {:induction false} GateSplits(p: Pending, steps: seq<Step>, g: nat, pl: DeferPlacement)
    requires g < |steps| && AllClosed(steps[..g], pl) && !Closed(steps[g], pl) && AllClosed(steps[g + 1..], pl)
    ensures Idles(pl, Logs(p, steps)[..g])
    ensures Placed(pl, Logs(p, steps)[g].applied) == Placed(pl, p.queue) + Sent(pl, Logs(p, steps)[..g + 1])
    ensures Idles(pl, Logs(p, steps)[g + 1..])
    ensures Placed(pl, Outcome(p, steps).queue) == Sent(pl, Logs(p, steps)[g + 1..])
  {
    var logs := Logs(p, steps);
    var mid := Outcome(p, steps[..g]);
    var rest := steps[g..];
    StepsCompose(p, steps, g);
    ClosedStepsKeep(p, steps[..g], pl);
    OpenStepRuns(mid, steps[g], pl);
    LogsTail(mid, rest);
    assert rest[0] == steps[g] && rest[1..] == steps[g + 1..];
    ClosedStepsKeep(After(mid, steps[g]), steps[g + 1..], pl);
    assert logs[g] == logs[g..][0] && logs[g + 1..] == logs[g..][1..];
    SentGrows(pl, logs, g);
    Associates(Placed(pl, p.queue), Sent(pl, logs[..g]), Placed(pl, logs[g].enqueued));
  }

  lemma {:induction false} FrameRunsAtGate(p: Pending, f: FrameScript, pl: DeferPlacement)
    requires f.Valid() && pl != EndOfUpdate
    ensures RunsAtGate(pl, Placed(pl, p.queue), Logs(p, FrameSteps(f)))
    ensures Placed(pl, Outcome(p, FrameSteps(f)).queue) == TooLate(pl, Logs(p, FrameSteps(f)))
  {
    var g, steps := Gate(pl), FrameSteps(f);
    forall s | s in steps[..g] ensures Closed(s, pl) {
      var k :| 0 <= k < g && steps[k] == s;
      GateIsTheOnlyOpening(f, pl, k);
    }
    forall s | s in steps[g + 1..] ensures Closed(s, pl) {
      var k :| 0 <= k < 21 - g && steps[g + 1..][k] == s;
      GateIsTheOnlyOpening(f, pl, g + 1 + k);
    }
    GateIsTheOnlyOpening(f, pl, g);
    GateSplits(p, steps, g, pl);
  }

  // ----- what a frame leaves -----

  /** The effects a frame that enqueues them at step `k` cannot run any more. */
  predicate Postponed(k: nat, e: Effect) {
    e.Defer? && ((e.placement == NextFrameStart && k > 0) || (e.placement == AtPostFrame && k > 18))
  }

  ghost function PostponedOf(k: nat, es: seq<Effect>): seq<Effect>
    decreases |es|
  {
    if es == [] then []
    else if Postponed(k, es[0]) then [es[0]] + PostponedOf(k, es[1..])
    else PostponedOf(k, es[1..])
  }

  ghost function PostponedFrom(k: nat, logs: seq<StepLog>): seq<Effect>
    decreases |logs|
  {
    if logs == [] then [] else PostponedOf(k, logs[0].enqueued) + PostponedFrom(k + 1, logs[1..])
  }

  lemma {:induction false} SurvivesExactlyPostponed(f: FrameScript, k: nat, e: Effect)
    requires f.Valid() && k < 22
    ensures Survives(FrameSteps(f)[k..], e) <==> Postponed(k, e)
  {
    var steps := FrameSteps(f);
    var g := if e.Defer? && e.placement != EndOfUpdate then Gate(e.placement) else 21;
    if g >= k {
      if g == 21 { assert steps[21] == Drains(Phase(FramePhase.Idle), f.idle); }
      if e.Defer? && e.placement != EndOfUpdate { GateIsTheOnlyOpening(f, e.placement, g); }
      assert !LeavesAlone(steps[k..][g - k], e);
    }
    if Postponed(k, e) {
      forall s | s in steps[k..] ensures LeavesAlone(s, e) {
        var i :| 0 <= i < 22 - k && steps[k..][i] == s;
        GateIsTheOnlyOpening(f, e.placement, k + i);
      }
    }
  }

  lemma {:induction false} KeptArePostponed(f: FrameScript, k: nat, es: seq<Effect>)
    requires f.Valid() && k < 22
    ensures Kept(FrameSteps(f)[k..], es) == PostponedOf(k, es)
    decreases |es|
  {
    if es != [] {
      SurvivesExactlyPostponed(f, k, es[0]);
      KeptArePostponed(f, k, es[1..]);
    }
  }

  lemma {:induction false} RemainsArePostponed(f: FrameScript, k: nat, logs: seq<StepLog>)
    requires f.Valid() && k <= 22 && |logs| == 22 - k
    ensures Remains(FrameSteps(f)[k..], logs) == PostponedFrom(k, logs)
    decreases 22 - k
  {
    if k < 22 {
      KeptArePostponed(f, k, logs[0].enqueued);
      assert FrameSteps(f)[k..][1..] == FrameSteps(f)[k + 1..];
      RemainsArePostponed(f, k + 1, logs[1..]);
    }
  }

  lemma {:induction false} NoneIsPostponedBefore(es: seq<Effect>)
    ensures PostponedOf(0, es) == []
    decreases |es|
  {
    if es != [] { NoneIsPostponedBefore(es[1..]); }
  }

  /** After a frame the queue holds, in order, exactly the callbacks for a next frame's start enqueued after the
      pre-frame entry drain and the post-frame callbacks enqueued after the post-frame entry drain. */
  lemma {:induction false} FrameLeaves(p: Pending, f: FrameScript)
    requires f.Valid()
    ensures Outcome(p, FrameSteps(f)).queue == PostponedFrom(0, Logs(p, FrameSteps(f)))
  {
    var steps := FrameSteps(f);
    StepsLeave(p, steps);
    assert steps[0..] == steps;
    KeptArePostponed(f, 0, p.queue);
    NoneIsPostponedBefore(p.queue);
    RemainsArePostponed(f, 0, Logs(p, steps));
  }

  // ----- what is pushed -----

  /** The callbacks of a placement are those deferred with it, each as often as it occurs. */
  lemma {:induction false} PlacedCounts(pl: DeferPlacement, es: seq<Effect>, e: Effect)
    ensures Times(Placed(pl, es), e) == if e.Defer? && e.placement == pl then Times(es, e) else 0
    decreases |es|
  {
    if es != [] {
      PlacedCounts(pl, es[1..], e);
      assert es == [es[0]] + es[1..];
      TimesAdd([es[0]], es[1..], e);
      TimesAdd([es[0]], Placed(pl, es[1..]), e);
    }
  }

  /** All callbacks pushed are enqueued, in the order they are pushed. */
  lemma {:induction false} PushesArePlaced(p: Pending, es: seq<Effect>, pl: DeferPlacement)
    ensures Placed(pl, Accepted(p, es)) == Placed(pl, es)
    decreases |es|
  {
    if es != [] {
      PushesArePlaced(Push(p, es[0]), es[1..], pl);
      if IsDuplicate(p, es[0]) {
        assert Push(p, es[0]) == p;
      }
    }
  }

  lemma PhasesInOrder()
    ensures PhaseAt(0) == PreFrame && PhaseAt(1) == AnimationTick && PhaseAt(2) == Build && PhaseAt(3) == Layout
    ensures PhaseAt(4) == Prepaint && PhaseAt(5) == Paint && PhaseAt(6) == PostFrame
  {
  }

  /** The seven phases in order, each with its entry drain, its body and an exit drain that no placement of the phase
      passes, and the idle drain last. */
  lemma {:induction false} FrameInOrder(f: FrameScript, i: nat)
    requires f.Valid() && i < 7
    ensures FrameSteps(f)[3 * i] == Drains(Phase(PhaseAt(i)), f.phases[i].entry)
    ensures FrameSteps(f)[3 * i + 1] == Pushes(f.phases[i].body)
    ensures FrameSteps(f)[3 * i + 2] == Drains(PhasePost(PhaseAt(i)), f.phases[i].exit)
    ensures FrameSteps(f)[21] == Drains(Phase(FramePhase.Idle), f.idle)
  {
    PhaseStepInFrame(f, i, 0);
    PhaseStepInFrame(f, i, 1);
    PhaseStepInFrame(f, i, 2);
  }

  lemma {:induction false} PhaseStepInFrame(f: FrameScript, i: nat, j: nat)
    requires f.Valid() && i < 7 && j < 3
    ensures FrameSteps(f)[3 * i + j] == PhaseSteps(PhaseAt(i), f.phases[i])[j]
  {
    PhasesFromAt(f, 0, i, j);
    assert FrameSteps(f)[3 * i + j] == PhasesFrom(f, 0)[3 * (i - 0) + j];
  }

  lemma {:induction false} StepInRun(p: Pending, steps: seq<Step>, k: nat)
    requires k < |steps|
    ensures Logs(p, steps)[k] == LogOf(Outcome(p, steps[..k]), steps[k])
    ensures Outcome(p, steps[..k + 1]) == After(Outcome(p, steps[..k]), steps[k])
  {
    var mid, upTo := Outcome(p, steps[..k]), steps[..k + 1];
    StepsCompose(p, steps, k);
    LogsTail(mid, steps[k..]);
    assert Logs(p, steps)[k..][0] == Logs(p, steps)[k] && steps[k..][0] == steps[k];
    StepsCompose(p, upTo, k);
    assert upTo[..k] == steps[..k] && upTo[k..] == [steps[k]];
    assert Outcome(mid, [steps[k]]) == Outcome(After(mid, steps[k]), []);
  }

  /** What a phase body pushes is enqueued. */
  lemma {:induction false} BodyIsEnqueued(p: Pending, f: FrameScript, i: nat, pl: DeferPlacement)
    requires f.Valid() && i < 7
    ensures Placed(pl, Logs(p, FrameSteps(f))[3 * i + 1].enqueued) == Placed(pl, f.phases[i].body)
  {
    var steps := FrameSteps(f);
    FrameInOrder(f, i);
    StepInRun(p, steps, 3 * i + 1);
    PushesArePlaced(Outcome(p, steps[..3 * i + 1]), f.phases[i].body, pl);
  }

  lemma {:induction false} NoneAfterDrain(p: Pending, scope: FlushScope, tape: seq<Reaction>)
    ensures Placed(EndOfUpdate, After(p, Drains(scope, tape)).queue) == []
    ensures Placed(EndOfUpdate, LogOf(p, Drains(scope, tape)).applied)
            == Placed(EndOfUpdate, p.queue) + Placed(EndOfUpdate, LogOf(p, Drains(scope, tape)).enqueued)
  {
    OpenStepRuns(p, Drains(scope, tape), EndOfUpdate);
  }

  /** Callbacks for the end of the update wait for no phase: those a phase body pushes run in the exit drain of that
      phase, together with those enqueued in it, and none is left. */
  lemma {:induction false} EndOfUpdateRunsAtExit(p: Pending, f: FrameScript, i: nat)
    requires f.Valid() && i < 7
    ensures var logs := Logs(p, FrameSteps(f));
            Placed(EndOfUpdate, logs[3 * i + 2].applied)
            == Placed(EndOfUpdate, f.phases[i].body) + Placed(EndOfUpdate, logs[3 * i + 2].enqueued)
    ensures Placed(EndOfUpdate, Outcome(p, FrameSteps(f)[..3 * i + 3]).queue) == []
  {
    var steps := FrameSteps(f);
    var before, entered := Outcome(p, steps[..3 * i]), Outcome(p, steps[..3 * i + 1]);
    var pushed := Outcome(p, steps[..3 * i + 2]);
    FrameInOrder(f, i);
    StepInRun(p, steps, 3 * i);
    StepInRun(p, steps, 3 * i + 1);
    StepInRun(p, steps, 3 * i + 2);
    NoneAfterDrain(before, Phase(PhaseAt(i)), f.phases[i].entry);
    ClosedStepKeeps(entered, Pushes(f.phases[i].body), EndOfUpdate);
    PushesArePlaced(entered, f.phases[i].body, EndOfUpdate);
    NoneAfterDrain(pushed, PhasePost(PhaseAt(i)), f.phases[i].exit);
    assert [] + Placed(EndOfUpdate, f.phases[i].body) == Placed(EndOfUpdate, f.phases[i].body);
  }

  lemma {:induction false} SentContains(pl: DeferPlacement, logs: seq<StepLog>, k: nat, e: Effect)
    requires k < |logs| && e in Placed(pl, logs[k].enqueued)
    ensures e in Sent(pl, logs)
    decreases |logs|
  {
    if k > 0 {
      SentContains(pl, logs[1..], k - 1, e);
    }
  }

  lemma {:induction false} PlacedContains(pl: DeferPlacement, es: seq<Effect>, c: nat)
    ensures Defer(pl, c) in Placed(pl, es) <==> Defer(pl, c) in es
  {
    PlacedCounts(pl, es, Defer(pl, c));
    assert Times(es, Defer(pl, c)) > 0 <==> Defer(pl, c) in es;
    assert Times(Placed(pl, es), Defer(pl, c)) > 0 <==> Defer(pl, c) in Placed(pl, es);
  }

  lemma {:induction false} SentInTimeRuns(pl: DeferPlacement, waiting: seq<Effect>, logs: seq<StepLog>, k: nat, c: nat)
    requires RunsAtGate(pl, waiting, logs) && k <= Gate(pl) && Defer(pl, c) in logs[k].enqueued
    ensures Defer(pl, c) in logs[Gate(pl)].applied
  {
    PlacedContains(pl, logs[k].enqueued, c);
    PlacedContains(pl, logs[Gate(pl)].applied, c);
    var upTo := logs[..Gate(pl) + 1];
    assert upTo[k] == logs[k];
    SentContains(pl, upTo, k, Defer(pl, c));
  }

  lemma {:induction false} SentTooLateStays(pl: DeferPlacement, logs: seq<StepLog>, k: nat, c: nat, left: seq<Effect>)
    requires pl != EndOfUpdate && |logs| == 22 && Gate(pl) < k < 22 && Defer(pl, c) in logs[k].enqueued
    requires Placed(pl, left) == TooLate(pl, logs)
    ensures Defer(pl, c) in left
  {
    PlacedContains(pl, logs[k].enqueued, c);
    PlacedContains(pl, left, c);
    var after := logs[Gate(pl) + 1..];
    assert after[k - Gate(pl) - 1] == logs[k];
    SentContains(pl, after, k - Gate(pl) - 1, Defer(pl, c));
  }

  /** A callback that a phase body pushes runs in the gate drain of its placement if that comes later in the frame, and
      else is in the queue when the frame ends. */
  lemma {:induction false} PushedCallbackRunsOrStays(p: Pending, f: FrameScript, i: nat, pl: DeferPlacement, c: nat)
    requires f.Valid() && i < 7 && pl != EndOfUpdate && Defer(pl, c) in f.phases[i].body
    ensures 3 * i + 1 < Gate(pl) ==> Defer(pl, c) in Logs(p, FrameSteps(f))[Gate(pl)].applied
    ensures 3 * i + 1 > Gate(pl) ==> Defer(pl, c) in Outcome(p, FrameSteps(f)).queue
  {
    var logs := Logs(p, FrameSteps(f));
    var k := 3 * i + 1;
    FrameRunsAtGate(p, f, pl);
    BodyIsEnqueued(p, f, i, pl);
    PlacedContains(pl, f.phases[i].body, c);
    PlacedContains(pl, logs[k].enqueued, c);
    if k < Gate(pl) {
      SentInTimeRuns(pl, Placed(pl, p.queue), logs, k, c);
    } else if k > Gate(pl) {
      SentTooLateStays(pl, logs, k, c, Outcome(p, FrameSteps(f)).queue);
    }
  }

  // ----- runs of frames -----

  /** One frame of a run: what is pushed since the last one, and the frame's own script. */
  datatype Beat = Beat(between: seq<Effect>, frame: FrameScript)

  datatype BeatLog = BeatLog(between: seq<Effect>, frame: seq<StepLog>)

  predicate AllValid(beats: seq<Beat>) {
    forall b <- beats :: b.frame.Valid()
  }

  ghost function RunLogs(p: Pending, beats: seq<Beat>): seq<BeatLog>
    requires AllValid(beats)
    decreases |beats|
  {
    if beats == [] then []
    else
      var q := PushAll(p, beats[0].between);
      var steps := FrameSteps(beats[0].frame);
      [BeatLog(Accepted(p, beats[0].between), Logs(q, steps))] + RunLogs(Outcome(q, steps), beats[1..])
  }

  /** In every frame the gate drain runs what the last frame left, what was pushed since, and what was enqueued up to
      the end of that drain, in this order; no other step runs any; what is enqueued later waits for the next frame. */
  ghost predicate RunsOnTime(pl: DeferPlacement, waiting: seq<Effect>, logs: seq<BeatLog>)
    decreases |logs|
  {
    logs == [] || (&& RunsAtGate(pl, waiting + Placed(pl, logs[0].between), logs[0].frame)
                   && RunsOnTime(pl, TooLate(pl, logs[0].frame), logs[1..]))
  }

  lemma {:induction false} FramesRunOnTime(p: Pending, beats: seq<Beat>, pl: DeferPlacement)
    requires AllValid(beats) && pl != EndOfUpdate
    ensures RunsOnTime(pl, Placed(pl, p.queue), RunLogs(p, beats))
    decreases |beats|
  {
    if beats != [] {
      var q := PushAll(p, beats[0].between);
      var steps := FrameSteps(beats[0].frame);
      QueueGrows(p, beats[0].between);
      PlacedAdds(pl, p.queue, Accepted(p, beats[0].between));
      FrameRunsAtGate(q, beats[0].frame, pl);
      FramesRunOnTime(Outcome(q, steps), beats[1..], pl);
      var logs := RunLogs(p, beats);
      assert logs[1..] == RunLogs(Outcome(q, steps), beats[1..]);
    }
  }

  lemma {:induction false} RunLogsSplit(p: Pending, beats: seq<Beat>)
    requires AllValid(beats) && beats != []
    ensures var q := PushAll(p, beats[0].between);
            var steps := FrameSteps(beats[0].frame);
            && RunLogs(p, beats)[0] == BeatLog(Accepted(p, beats[0].between), Logs(q, steps))
            && RunLogs(p, beats)[1..] == RunLogs(Outcome(q, steps), beats[1..])
  {
  }

  lemma {:induction false} StartsAtOnce(waiting: seq<Effect>, log: seq<StepLog>)
    requires RunsAtGate(NextFrameStart, waiting, log)
    ensures Placed(NextFrameStart, log[0].applied) == waiting + Placed(NextFrameStart, log[0].enqueued)
  {
    SentGrows(NextFrameStart, log, 0);
    assert log[..0] == [];
  }

  lemma {:induction false} FirstBeatStarts(p: Pending, beats: seq<Beat>)
    requires AllValid(beats) && beats != []
    ensures var log := RunLogs(p, beats)[0];
            && |log.frame| == 22
            && Placed(NextFrameStart, log.frame[0].applied)
               == Placed(NextFrameStart, p.queue) + Placed(NextFrameStart, log.between)
                  + Placed(NextFrameStart, log.frame[0].enqueued)
  {
    FramesRunOnTime(p, beats, NextFrameStart);
    var log := RunLogs(p, beats)[0];
    StartsAtOnce(Placed(NextFrameStart, p.queue) + Placed(NextFrameStart, log.between), log.frame);
  }

  /** A callback for the next frame's start that a frame enqueues after its pre-frame entry drain, in any phase
      body or drain, does not run in that frame and runs in the pre-frame entry drain of the next. */
  lemma {:induction false} NextFrameStartRunsNextFrame(p: Pending, beats: seq<Beat>, k: nat)
    requires AllValid(beats) && k + 1 < |RunLogs(p, beats)|
    ensures var now, next := RunLogs(p, beats)[k], RunLogs(p, beats)[k + 1];
            && |now.frame| == 22 && |next.frame| == 22
            && Idles(NextFrameStart, now.frame[1..])
            && Placed(NextFrameStart, next.frame[0].applied)
               == Sent(NextFrameStart, now.frame[1..]) + Placed(NextFrameStart, next.between)
                  + Placed(NextFrameStart, next.frame[0].enqueued)
    decreases k
  {
    var logs := RunLogs(p, beats);
    var q := PushAll(p, beats[0].between);
    var steps := FrameSteps(beats[0].frame);
    RunLogsSplit(p, beats);
    if k > 0 {
      NextFrameStartRunsNextFrame(Outcome(q, steps), beats[1..], k - 1);
      assert logs[k] == logs[1..][k - 1] && logs[k + 1] == logs[1..][k];
    } else {
      FirstBeatStarts(Outcome(q, steps), beats[1..]);
      FrameRunsAtGate(q, beats[0].frame, NextFrameStart);
    }
  }

  // ----- all at once -----

  /** Everything the steps logged applied, in order. */
  ghost function AllApplied(logs: seq<StepLog>): seq<Effect>
    decreases |logs|
  {
    if logs == [] then [] else logs[0].applied + AllApplied(logs[1..])
  }

  /** The queue after the steps, and the history of applied effects. */
  datatype Played = Played(pending: Pending, history: seq<Effect>)

  ghost function Play(w: Played, steps: seq<Step>): Played {
    Played(Outcome(w.pending, steps), w.history + AllApplied(Logs(w.pending, steps)))
  }

  lemma {:induction false} AppliedAdds(a: seq<StepLog>, b: seq<StepLog>)
    ensures AllApplied(a + b) == AllApplied(a) + AllApplied(b)
    decreases |a|
  {
    if a == [] {
      assert a + b == b;
    } else {
      assert (a + b)[1..] == a[1..] + b;
      AppliedAdds(a[1..], b);
      Associates(a[0].applied, AllApplied(a[1..]), AllApplied(b));
    }
  }

  lemma {:induction false} PlayOn(w: Played, a: seq<Step>, b: seq<Step>)
    ensures Play(w, a + b) == Play(Play(w, a), b)
  {
    StepsCompose(w.pending, a + b, |a|);
    assert (a + b)[..|a|] == a && (a + b)[|a|..] == b;
    var logs := Logs(w.pending, a + b);
    assert logs == logs[..|a|] + logs[|a|..];
    AppliedAdds(logs[..|a|], logs[|a|..]);
    Associates(w.history, AllApplied(logs[..|a|]), AllApplied(logs[|a|..]));
  }

  lemma {:induction false} PlayOne(w: Played, s: Step)
    ensures Play(w, [s]) == Played(After(w.pending, s), w.history + LogOf(w.pending, s).applied)
  {
    assert Outcome(w.pending, [s]) == Outcome(After(w.pending, s), []);
    LogsTail(w.pending, [s]);
    assert AllApplied(Logs(w.pending, [s])) == LogOf(w.pending, s).applied + [];
  }

  /** Pushes, drains, frames and whole runs of them keep the queue free of duplicate notifications. */
  lemma {:induction false} StepsDeduplicate(p: Pending, steps: seq<Step>)
    requires Deduplicated(p)
    ensures Deduplicated(Outcome(p, steps))
    decreases |steps|
  {
    if steps != [] {
      if steps[0].Pushes? {
        PushAllDeduplicates(p, steps[0].es);
      } else {
        DrainDeduplicates(p, steps[0].tape, steps[0].scope, None);
      }
      StepsDeduplicate(After(p, steps[0]), steps[1..]);
    }
  }
}

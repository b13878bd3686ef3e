/**
 * Any number of supervised agents on one store (packages/runtime/src/Supervisor.ts), each of which
 * sees a run of the one-agent machine.
 */
module FleetAgents {
  import opened Wrappers
  import opened Events
  import opened Supervisor
  import Repeats
  import M = MemoryStore
  import Ulid

  // ----- what one agent's step is to the others -----------------------------------

  /** What an agent's own step does to the store. */
  function StoreSteps(s: State, step: Step): seq<M.Step>
    requires s.store.last >= 0.0 && !step.Env?
  {
    if step.StartUp? then if s.life.Some? then [] else [M.Subscribe(s.book.saved, s.p)]
    else if s.life.None? then []
    else
      var life := s.life.value;
      match step
      case Deliver => if life.work != Idle then [] else [M.Take(life.sub)]
      case HandlerReturns(emits, ticks) =>
        if !life.work.Handling? || |s.store.unpublished| > 0 || |emits| != |ticks| || |emits| == 0 then []
        else [M.BeginAppend(Stamp(s.agent, life.work.event.id, emits), ticks)]
      case Retry => if !life.work.Failed? then [] else [M.Subscribe(life.startCursor, s.p)]
      case _ => []
  }

  lemma StoreStepsAre(s: State, step: Step)
    requires s.store.last >= 0.0 && !step.Env?
    ensures |StoreSteps(s, step)| <= 1
    ensures var steps := StoreSteps(s, step);
            Next(s, step).store == if |steps| == 0 then s.store else M.Next(s.store, steps[0])
  {
  }

  /** Where an agent's subscription is afterwards: where it was, or a new one. */
  lemma SubAfter(s: State, step: Step)
    requires s.store.last >= 0.0 && !step.Env? && (s.life.Some? ==> s.life.value.sub < |s.store.subs|)
    ensures var t := Next(s, step);
            && |s.store.subs| <= |t.store.subs| <= |s.store.subs| + 1
            && (t.life.Some? ==>
                  t.life.value.sub < |t.store.subs|
                  && (t.life.value.sub == |s.store.subs| || (s.life.Some? && t.life.value.sub == s.life.value.sub)))
  {
    if step.HandlerReturns? { StoreStepsAre(s, step); }
  }

  // ----- one agent's view ---------------------------------------------------------

  /** Every agent has a subscription of its own. */
  ghost predicate OwnSubs(f: Fleet) {
    && (forall a :: a in f.agents && f.agents[a].life.Some? ==> f.agents[a].life.value.sub < |f.store.subs|)
    && (forall a, b :: a in f.agents && b in f.agents && a != b && f.agents[a].life.Some? && f.agents[b].life.Some? ==>
          f.agents[a].life.value.sub != f.agents[b].life.value.sub)
  }

  /** What a step of the fleet is to one of its agents. */
  function View(f: Fleet, agent: string, step: FleetStep): seq<Step>
    requires f.store.last >= 0.0 && agent in f.agents
  {
    match step
    case Outside(inner) => if TakesForAgent(f, inner) then [] else [Env(inner)]
    case Act(other, inner) =>
      if other !in f.agents || inner.Env? then []
      else if other == agent then [inner]
      else
        var steps := StoreSteps(Seen(f, other), inner);
        if |steps| == 0 then [] else [Env(steps[0])]
  }

  lemma OwnSubsStay(f: Fleet, step: FleetStep)
    requires f.store.last >= 0.0 && OwnSubs(f)
    ensures OwnSubs(FleetNext(f, step))
  {
    match step {
      case Outside(inner) => StoreMoves(f, M.Next(f.store, inner));
      case Act(agent, inner) => if agent in f.agents && !inner.Env? { ActOwnsSubs(f, agent, inner); }
    }
  }

  lemma StoreMoves(f: Fleet, store: M.State)
    requires OwnSubs(f) && |f.store.subs| <= |store.subs|
    ensures OwnSubs(f.(store := store))
  {
  }

  lemma ActOwnsSubs(f: Fleet, agent: string, step: Step)
    requires f.store.last >= 0.0 && OwnSubs(f) && agent in f.agents && !step.Env?
    ensures OwnSubs(FleetNext(f, Act(agent, step)))
  {
    SubAfter(Seen(f, agent), step);
    OneMoves(f, agent, Next(Seen(f, agent), step));
  }

  lemma OneMoves(f: Fleet, agent: string, after: State)
    requires OwnSubs(f) && agent in f.agents && |f.store.subs| <= |after.store.subs|
    requires after.life.Some? ==>
      && after.life.value.sub < |after.store.subs|
      && (after.life.value.sub == |f.store.subs|
          || (f.agents[agent].life.Some? && after.life.value.sub == f.agents[agent].life.value.sub))
    ensures OwnSubs(Fleet(after.store, f.agents[agent := after]))
  {
  }

  /** A step another agent takes is, to this one, something that happens to the store. */
  lemma OtherActs(f: Fleet, agent: string, other: string, step: Step)
    requires f.store.last >= 0.0 && OwnSubs(f) && agent in f.agents && other in f.agents && other != agent && !step.Env?
    ensures Seen(FleetNext(f, Act(other, step)), agent) ==
            var steps := StoreSteps(Seen(f, other), step);
            if |steps| == 0 then Seen(f, agent) else Next(Seen(f, agent), Env(steps[0]))
  {
    StoreStepsAre(Seen(f, other), step);
  }

  lemma ViewIs(f: Fleet, agent: string, step: FleetStep)
    requires f.store.last >= 0.0 && OwnSubs(f) && agent in f.agents
    ensures |View(f, agent, step)| <= 1
    ensures Seen(FleetNext(f, step), agent) ==
            if |View(f, agent, step)| == 0 then Seen(f, agent) else Next(Seen(f, agent), View(f, agent, step)[0])
  {
    match step {
      case Outside(inner) =>
      case Act(other, inner) =>
        if other in f.agents && !inner.Env? && other != agent { OtherActs(f, agent, other, inner); }
    }
  }

  /** The whole run as one agent sees it. */
  function Views(f: Fleet, agent: string, steps: seq<FleetStep>): seq<Step>
    requires f.store.last >= 0.0 && agent in f.agents
  {
    if |steps| == 0 then [] else
      var init := steps[..|steps| - 1];
      Views(f, agent, init) + View(FleetRun(f, init), agent, steps[|steps| - 1])
  }

  /** Each agent of a fleet lives a run of the one-agent machine: its own steps and what the others do to the store. */
  lemma {:induction false} FleetRefines(f: Fleet, agent: string, steps: seq<FleetStep>)
    requires f.store.last >= 0.0 && OwnSubs(f) && agent in f.agents
    ensures OwnSubs(FleetRun(f, steps))
    ensures Seen(FleetRun(f, steps), agent) == Run(Seen(f, agent), Views(f, agent, steps))
  {
    if |steps| > 0 {
      var init, last := steps[..|steps| - 1], steps[|steps| - 1];
      var before := FleetRun(f, init);
      FleetRefines(f, agent, init);
      OwnSubsStay(before, last);
      ViewIs(before, agent, last);
      RunConcat(Seen(f, agent), Views(f, agent, init), View(before, agent, last));
      if |View(before, agent, last)| == 1 { OneStep(Seen(before, agent), View(before, agent, last)[0]); }
      assert |View(before, agent, last)| == 1 ==> View(before, agent, last) == [View(before, agent, last)[0]];
    }
  }

  ghost predicate ValidFleetStep(step: FleetStep) {
    match step
    case Outside(inner) => M.ValidStep(inner)
    case Act(_, inner) => ValidStep(inner)
  }

  lemma {:induction false} ViewsAreValid(f: Fleet, agent: string, steps: seq<FleetStep>)
    requires f.store.last >= 0.0 && agent in f.agents && forall k :: 0 <= k < |steps| ==> ValidFleetStep(steps[k])
    ensures ValidSteps(Views(f, agent, steps))
  {
    if |steps| > 0 {
      var init, last := steps[..|steps| - 1], steps[|steps| - 1];
      ViewsAreValid(f, agent, init);
      assert ValidFleetStep(last);
    }
  }

  // ----- what every agent of a fleet is promised ----------------------------------

  /**
   * No agent of a fleet persists a cursor ahead of its work, whatever the other agents emit, fail on
   * and restart, as long as it is handed nothing from behind a gap in its own window.
   */
  lemma NoneIsAhead(f: Fleet, steps: seq<FleetStep>, agent: string, p: Event -> bool, threshold: int, origin: Cursor)
    requires M.Inv(f.store) && OwnSubs(f) && agent in f.agents && M.Below(origin, f.store)
    requires Seen(f, agent) == Supervisor.Start(f.store, agent, p, threshold, origin)
    requires forall k :: 0 <= k < |steps| ==> ValidFleetStep(steps[k])
    requires FleetRun(f, steps).store.last.Floor < Ulid.STAMP_LIMIT
    requires Never(HandsPastGap, Seen(f, agent), Views(f, agent, steps))
    ensures var s := Seen(FleetRun(f, steps), agent);
            && !s.book.saved.Latest?
            && (s.book.saved.At? ==>
                  forall e :: e in s.store.log && AfterCursor(origin, e) && p(e) && e.id <= s.book.saved.id ==>
                    e.id in s.done)
  {
    FleetRefines(f, agent, steps);
    ViewsAreValid(f, agent, steps);
    SavedIsNeverAhead(f.store, agent, p, threshold, origin, Views(f, agent, steps));
  }

  /** And if its handler never fails, a crash makes it repeat no more than its flush threshold allows. */
  lemma NoneRepeatsMore(f: Fleet, steps: seq<FleetStep>, agent: string, p: Event -> bool, threshold: int,
                        origin: Cursor)
    requires M.Inv(f.store) && OwnSubs(f) && agent in f.agents && Repeats.Reached(origin, f.store)
    requires Seen(f, agent) == Supervisor.Start(f.store, agent, p, threshold, origin)
    requires forall k :: 0 <= k < |steps| ==> ValidFleetStep(steps[k])
    requires FleetRun(f, steps).store.last.Floor < Ulid.STAMP_LIMIT
    requires var views := Views(f, agent, steps); Never(HandsPastGap, Seen(f, agent), views) && HandlerFails !in views
    ensures var s := Seen(FleetRun(f, steps), agent);
            |Repeats.PastSaved(s)| <= Repeats.Bound(threshold)
  {
    FleetRefines(f, agent, steps);
    ViewsAreValid(f, agent, steps);
    Repeats.CompletedPastSaved(f.store, agent, p, threshold, origin, Views(f, agent, steps));
    RunFixes(Seen(f, agent), Views(f, agent, steps));
  }
}

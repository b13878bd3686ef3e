/**
 * The provenance sidebar's event log and ancestry walk (apps/web/src/EventLog.ts).
 */
module Lineage {
  import opened Wrappers
  import opened Events
  import Supervisor
  import Ulid

  const MAX_EVENTS: nat := 500

  datatype Logged = Logged(id: nat, kind: string, actor: string, causedBy: seq<nat>)

  function Entry(e: Event): Logged {
    Logged(e.id, e.kind, e.actor, Supervisor.Causes(e.causedBy))
  }

  /** Append, keeping the last `MAX_EVENTS`. */
  function PushEvent(log: seq<Logged>, e: Event): seq<Logged> {
    var next := log + [Entry(e)];
    if |next| > MAX_EVENTS then next[|next| - MAX_EVENTS..] else next
  }

  function PushAll(es: seq<Event>): seq<Logged> {
    if |es| == 0 then [] else PushEvent(PushAll(es[..|es| - 1]), es[|es| - 1])
  }

  /** What one push leaves where. */
  lemma PushShifts(log: seq<Logged>, e: Event)
    requires |log| <= MAX_EVENTS
    ensures var after := PushEvent(log, e);
            var drop := |log| + 1 - |after|;
            && |after| == (if |log| < MAX_EVENTS then |log| + 1 else MAX_EVENTS)
            && after[|after| - 1] == Entry(e)
            && forall i :: 0 <= i < |after| - 1 ==> after[i] == log[i + drop]
  {
  }

  /** The log is the last `MAX_EVENTS` received events, in order. */
  lemma {:induction false} PushAllKeepsTheLast(es: seq<Event>)
    ensures var n := if |es| < MAX_EVENTS then |es| else MAX_EVENTS;
            |PushAll(es)| == n && forall i :: 0 <= i < n ==> PushAll(es)[i] == Entry(es[|es| - n + i])
  {
    if |es| > 0 {
      var init := es[..|es| - 1];
      var before, after := PushAll(init), PushAll(es);
      PushAllKeepsTheLast(init);
      PushShifts(before, es[|es| - 1]);
      forall i | 0 <= i < |after| - 1 ensures after[i] == Entry(es[|es| - |after| + i]) {
        var k := i + (|before| + 1 - |after|);
        assert before[k] == Entry(init[|init| - |before| + k]);
      }
    }
  }

  /** `new Map(log.map((e) => [e.id, e]))`: a later entry replaces an earlier one with its id. */
  function ById(log: seq<Logged>): map<nat, Logged> {
    if |log| == 0 then map[] else ById(log[..|log| - 1])[log[|log| - 1].id := log[|log| - 1]]
  }

  lemma {:induction false} ByIdHolds(log: seq<Logged>)
    ensures forall id :: id in ById(log) ==> ById(log)[id] in log && ById(log)[id].id == id
    ensures forall e :: e in log ==> e.id in ById(log)
  {
    if |log| > 0 {
      ByIdHolds(log[..|log| - 1]);
      assert log == log[..|log| - 1] + [log[|log| - 1]];
    }
  }

  // ----- walkLineage --------------------------------------------------------------

  /** Each entry is the log's, and the next is the first cause of the one before. */
  ghost predicate IsPath(byId: map<nat, Logged>, eventId: nat, chain: seq<Logged>) {
    && (|chain| > 0 ==> chain[0].id == eventId)
    && (forall i :: 0 <= i < |chain| ==> chain[i].id in byId && byId[chain[i].id] == chain[i])
    && (forall i :: 0 <= i < |chain| - 1 ==> |chain[i].causedBy| > 0 && chain[i + 1].id == chain[i].causedBy[0])
  }

  ghost predicate Visits(chain: seq<Logged>, id: nat) {
    exists i :: 0 <= i < |chain| && chain[i].id == id
  }

  ghost predicate NoneTwice(chain: seq<Logged>) {
    forall i, j :: 0 <= i < j < |chain| ==> chain[i].id != chain[j].id
  }

  /** The id the walk would go to next. */
  function Onward(eventId: nat, chain: seq<Logged>): Option<nat> {
    if |chain| == 0 then Some(eventId)
    else if |chain[|chain| - 1].causedBy| == 0 then None
    else Some(chain[|chain| - 1].causedBy[0])
  }

  lemma OneMoreVisit(chain: seq<Logged>, event: Logged)
    ensures forall id :: Visits(chain + [event], id) <==> Visits(chain, id) || id == event.id
    ensures NoneTwice(chain) && !Visits(chain, event.id) ==> NoneTwice(chain + [event])
  {
    var more := chain + [event];
    forall id ensures Visits(more, id) <==> Visits(chain, id) || id == event.id {
      if Visits(chain, id) {
        var i :| 0 <= i < |chain| && chain[i].id == id;
        assert more[i].id == id;
      }
      assert more[|chain|] == event;
    }
  }

  lemma PathMore(byId: map<nat, Logged>, eventId: nat, chain: seq<Logged>, event: Logged)
    requires IsPath(byId, eventId, chain) && Onward(eventId, chain) == Some(event.id)
    requires event.id in byId && byId[event.id] == event
    ensures IsPath(byId, eventId, chain + [event])
  {
  }

  /**
   * What the walk promises: a path without repeats along first causes that stops only at the
   * depth limit, at an event without a cause, at a cause the log does not hold, or, when `cycle`
   * is set, at one already visited.
   */
  ghost predicate IsWalk(log: seq<Logged>, eventId: nat, maxDepth: int, chain: seq<Logged>, cycle: bool) {
    && IsPath(ById(log), eventId, chain) && NoneTwice(chain)
    && |chain| <= (if maxDepth < 0 then 0 else maxDepth)
    && (|chain| >= maxDepth || cycle || Onward(eventId, chain).None? || Onward(eventId, chain).value !in ById(log))
    && (cycle ==> |chain| < maxDepth && Onward(eventId, chain).Some? && Visits(chain, Onward(eventId, chain).value))
  }

  method WalkLineage(log: seq<Logged>, eventId: nat, maxDepth: int) returns (chain: seq<Logged>, cycle: bool)
    ensures IsWalk(log, eventId, maxDepth, chain, cycle)
  {
    var byId := ById(log);
    chain, cycle := [], false;
    var visited: set<nat> := {};
    var current := if eventId in byId then Some(byId[eventId]) else None;
    var depth := 0;
    ByIdHolds(log);
    while current.Some? && depth < maxDepth
      invariant depth == |chain| && (depth == 0 || depth <= maxDepth)
      invariant IsPath(byId, eventId, chain) && NoneTwice(chain) && !cycle
      invariant forall id :: id in visited <==> Visits(chain, id)
      invariant Onward(eventId, chain).Some?
      invariant var next := Onward(eventId, chain).value;
                current == if next in byId then Some(byId[next]) else None
      decreases maxDepth - depth
    {
      var event := current.value;
      if event.id in visited {
        cycle := true;
        break;
      }
      OneMoreVisit(chain, event);
      PathMore(byId, eventId, chain, event);
      visited := visited + {event.id};
      chain := chain + [event];
      depth := depth + 1;
      if |event.causedBy| == 0 { break; }
      var parentId := event.causedBy[0];
      current := if parentId in byId then Some(byId[parentId]) else None;
    }
  }

  /** Every cause is smaller than the event that cites it. */
  ghost predicate CausesSmaller(log: seq<Logged>) {
    forall e, c :: e in log && c in e.causedBy ==> c < e.id
  }

  lemma {:induction false} PathDescends(log: seq<Logged>, eventId: nat, chain: seq<Logged>, i: nat, j: nat)
    requires CausesSmaller(log) && IsPath(ById(log), eventId, chain) && i < j < |chain|
    ensures chain[j].id < chain[i].id
    decreases j
  {
    ByIdHolds(log);
    assert chain[j - 1] in log && chain[j - 1].causedBy[0] in chain[j - 1].causedBy;
    if i < j - 1 { PathDescends(log, eventId, chain, i, j - 1); }
  }

  /** Over such a log every path strictly descends, and its next step is no event already on it. */
  lemma LineageDescends(log: seq<Logged>, eventId: nat, chain: seq<Logged>)
    requires CausesSmaller(log) && IsPath(ById(log), eventId, chain)
    ensures forall i, j :: 0 <= i < j < |chain| ==> chain[j].id < chain[i].id
    ensures Onward(eventId, chain).Some? ==> !Visits(chain, Onward(eventId, chain).value)
  {
    forall i, j | 0 <= i < j < |chain| ensures chain[j].id < chain[i].id {
      PathDescends(log, eventId, chain, i, j);
    }
    if |chain| > 0 && Onward(eventId, chain).Some? {
      var last, next := chain[|chain| - 1], Onward(eventId, chain).value;
      ByIdHolds(log);
      assert last in log && next in last.causedBy;
      forall i | 0 <= i < |chain| ensures chain[i].id != next { }
    }
  }

  /** A sidebar fed with events that cite only smaller ids never meets the cycle guard. */
  lemma ReceivedLineageDescends(received: seq<Event>, eventId: nat, maxDepth: int, chain: seq<Logged>, cycle: bool)
    requires forall e, c :: e in received && c in Supervisor.Causes(e.causedBy) ==> c < e.id
    requires IsWalk(PushAll(received), eventId, maxDepth, chain, cycle)
    ensures !cycle && forall i, j :: 0 <= i < j < |chain| ==> chain[j].id < chain[i].id
  {
    var log := PushAll(received);
    PushAllKeepsTheLast(received);
    forall e, c | e in log && c in e.causedBy ensures c < e.id {
      var i :| 0 <= i < |log| && log[i] == e;
      assert received[|received| - |log| + i] in received;
    }
    LineageDescends(log, eventId, chain);
  }

  /** The events the sidebar still holds. */
  function Kept(received: seq<Event>): seq<Event> {
    received[if |received| < MAX_EVENTS then 0 else |received| - MAX_EVENTS..]
  }

  /** The first cause of an event, if it has any. */
  function FirstCause(e: Event): Option<nat> {
    if e.causedBy.Some? && |e.causedBy.value| > 0 then Some(e.causedBy.value[0]) else None
  }

  /** What an entry of the walk stands for. */
  lemma ChainEntryIs(received: seq<Event>, entry: Logged) returns (e: Event)
    requires entry in PushAll(received)
    ensures e in Kept(received) && e.id == entry.id && e.kind == entry.kind && e.actor == entry.actor
    ensures FirstCause(e) == if |entry.causedBy| > 0 then Some(entry.causedBy[0]) else None
  {
    PushAllKeepsTheLast(received);
    var log := PushAll(received);
    var i :| 0 <= i < |log| && log[i] == entry;
    e := received[|received| - |log| + i];
    assert Kept(received)[i] == e;
  }

  lemma KeptIsLogged(received: seq<Event>, e: Event)
    requires e in Kept(received)
    ensures e.id in ById(PushAll(received))
  {
    var log := PushAll(received);
    PushAllKeepsTheLast(received);
    ByIdHolds(log);
    var i :| 0 <= i < |Kept(received)| && Kept(received)[i] == e;
    assert log[i] == Entry(received[|received| - |log| + i]);
    assert log[i] in log;
  }

  /** Nothing with this id is among the events the sidebar still holds. */
  ghost predicate Unknown(received: seq<Event>, id: nat) {
    forall e :: e in Kept(received) ==> e.id != id
  }

  lemma NotLogged(received: seq<Event>, id: nat)
    requires id !in ById(PushAll(received))
    ensures Unknown(received, id)
  {
    forall e | e in Kept(received) ensures e.id != id { KeptIsLogged(received, e); }
  }

  /** Some received event of id `from` has `to` as its first cause. */
  ghost predicate Cites(received: seq<Event>, from: nat, to: nat) {
    exists e :: e in Kept(received) && e.id == from && FirstCause(e) == Some(to)
  }

  /** Some received event of id `from` has no cause, or its first is not held any more. */
  ghost predicate EndsAt(received: seq<Event>, from: nat) {
    exists e :: e in Kept(received) && e.id == from && (FirstCause(e).None? || Unknown(received, FirstCause(e).value))
  }

  lemma NextIsCause(received: seq<Event>, eventId: nat, chain: seq<Logged>, i: nat)
    requires IsPath(ById(PushAll(received)), eventId, chain) && i < |chain| - 1
    ensures Cites(received, chain[i].id, chain[i + 1].id)
  {
    ByIdHolds(PushAll(received));
    assert chain[i].id in ById(PushAll(received));
    var e := ChainEntryIs(received, chain[i]);
  }

  lemma LastEnds(received: seq<Event>, eventId: nat, chain: seq<Logged>)
    requires IsPath(ById(PushAll(received)), eventId, chain) && |chain| > 0
    requires Onward(eventId, chain).None? || Onward(eventId, chain).value !in ById(PushAll(received))
    ensures EndsAt(received, chain[|chain| - 1].id)
  {
    ByIdHolds(PushAll(received));
    assert chain[|chain| - 1].id in ById(PushAll(received));
    var e := ChainEntryIs(received, chain[|chain| - 1]);
    if FirstCause(e).Some? { NotLogged(received, FirstCause(e).value); }
  }

  /**
   * The walk in terms of what was received: it starts at the event asked for, each next entry is the
   * first cause of a received event the one before stands for, and unless it meets the depth limit
   * or an event visited before, it goes on as long as that cause is among the last 500 received.
   */
  lemma WalkFollowsCauses(received: seq<Event>, eventId: nat, maxDepth: int, chain: seq<Logged>, cycle: bool)
    requires IsWalk(PushAll(received), eventId, maxDepth, chain, cycle)
    ensures |chain| == 0 ==> maxDepth <= 0 || Unknown(received, eventId)
    ensures |chain| > 0 ==> chain[0].id == eventId
    ensures forall i :: 0 <= i < |chain| - 1 ==> Cites(received, chain[i].id, chain[i + 1].id)
    ensures 0 < |chain| < maxDepth && !cycle ==> EndsAt(received, chain[|chain| - 1].id)
  {
    if |chain| == 0 {
      if maxDepth > 0 { NotLogged(received, eventId); }
    } else {
      forall i | 0 <= i < |chain| - 1 ensures Cites(received, chain[i].id, chain[i + 1].id) {
        NextIsCause(received, eventId, chain, i);
      }
      if |chain| < maxDepth && !cycle { LastEnds(received, eventId, chain); }
    }
  }

  /**
   * From the agents to the sidebar: in every run of any number of agents on one store, with other
   * inputs citing only logged events, whatever part of the log a sidebar has received, every walk
   * over it strictly descends and none meets the cycle guard.
   */
  lemma FleetLineageDescends(f: Supervisor.Fleet, steps: seq<Supervisor.FleetStep>, received: seq<Event>,
                             eventId: nat, maxDepth: int, chain: seq<Logged>, cycle: bool)
    requires Supervisor.FleetCausal(f) && Supervisor.FleetStepsCite(f, steps)
    requires Supervisor.FleetRun(f, steps).store.last.Floor < Ulid.STAMP_LIMIT
    requires forall e :: e in received ==> e in Supervisor.FleetRun(f, steps).store.log
    requires IsWalk(PushAll(received), eventId, maxDepth, chain, cycle)
    ensures !cycle && forall i, j :: 0 <= i < j < |chain| ==> chain[j].id < chain[i].id
  {
    Supervisor.FleetCausesAreSmaller(f, steps);
    ReceivedLineageDescends(received, eventId, maxDepth, chain, cycle);
  }
}

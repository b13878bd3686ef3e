/**
 * The agents' telemetry heartbeats: every tick samples each agent's cursor and
 * appends one batch for those whose cursor has moved
 * (packages/runtime/src/Supervisor.ts, forkHeartbeat).
 */
module AgentTicks {
  import opened Wrappers

  /** One agent's cursor as a tick reads it; an agent that has handled nothing has none. */
  datatype Sample = Sample(agent: string, cursor: Option<nat>)

  /** One tick: what it samples, and whether an append would succeed. */
  datatype Tick = Tick(samples: seq<Sample>, appendSucceeds: bool)

  /** The emitter's memory, and every heartbeat that reached the log. */
  datatype Emitter = Emitter(lastEmitted: map<string, Option<nat>>, log: seq<Sample>)

  predicate OncePerAgent(samples: seq<Sample>) {
    forall i, j | 0 <= i < j < |samples| :: samples[i].agent != samples[j].agent
  }

  predicate Moved(lastEmitted: map<string, Option<nat>>, s: Sample) {
    s.agent in lastEmitted ==> lastEmitted[s.agent] != s.cursor
  }

  function Due(lastEmitted: map<string, Option<nat>>, samples: seq<Sample>): (due: seq<Sample>)
    ensures forall s :: s in due <==> s in samples && Moved(lastEmitted, s)
  {
    if samples == [] then []
    else
      var n := |samples| - 1;
      var before := Due(lastEmitted, samples[..n]);
      assert samples == samples[..n] + [samples[n]];
      if Moved(lastEmitted, samples[n]) then before + [samples[n]] else before
  }

  /** What is due keeps the order of the samples. */
  lemma {:induction false} DueInOrder(lastEmitted: map<string, Option<nat>>, a: seq<Sample>, b: seq<Sample>)
    ensures Due(lastEmitted, a + b) == Due(lastEmitted, a) + Due(lastEmitted, b)
  {
    if b == [] {
      assert a + b == a;
    } else {
      DueInOrder(lastEmitted, a, b[..|b| - 1]);
      assert (a + b)[..|a + b| - 1] == a + b[..|b| - 1] && (a + b)[|a + b| - 1] == b[|b| - 1];
    }
  }

  lemma {:induction false} DueOncePerAgent(lastEmitted: map<string, Option<nat>>, samples: seq<Sample>)
    requires OncePerAgent(samples)
    ensures OncePerAgent(Due(lastEmitted, samples))
  {
    if samples != [] {
      var n := |samples| - 1;
      DueOncePerAgent(lastEmitted, samples[..n]);
      forall s | s in Due(lastEmitted, samples[..n]) ensures s.agent != samples[n].agent {
        var i :| 0 <= i < n && samples[..n][i] == s;
        assert samples[i] == s;
      }
    }
  }

  function Recorded(lastEmitted: map<string, Option<nat>>, sent: seq<Sample>): (m: map<string, Option<nat>>)
    ensures m.Keys == lastEmitted.Keys + set s | s in sent :: s.agent
  {
    if sent == [] then lastEmitted
    else
      var n := |sent| - 1;
      assert sent == sent[..n] + [sent[n]];
      Recorded(lastEmitted, sent[..n])[sent[n].agent := sent[n].cursor]
  }

  function Ticked(e: Emitter, tick: Tick): Emitter {
    var due := Due(e.lastEmitted, tick.samples);
    if due == [] || !tick.appendSucceeds then e
    else Emitter(Recorded(e.lastEmitted, due), e.log + due)
  }

  function Run(ticks: seq<Tick>): Emitter {
    if ticks == [] then Emitter(map[], [])
    else Ticked(Run(ticks[..|ticks| - 1]), ticks[|ticks| - 1])
  }

  // ----- One agent's heartbeats --------------------------------------------------

  function History(log: seq<Sample>, agent: string): seq<Option<nat>> {
    if log == [] then []
    else
      var before := History(log[..|log| - 1], agent);
      if log[|log| - 1].agent == agent then before + [log[|log| - 1].cursor] else before
  }

  lemma {:induction false} HistoryOfConcat(a: seq<Sample>, b: seq<Sample>, agent: string)
    ensures History(a + b, agent) == History(a, agent) + History(b, agent)
  {
    if b == [] {
      assert a + b == a;
    } else {
      HistoryOfConcat(a, b[..|b| - 1], agent);
      assert (a + b)[..|a + b| - 1] == a + b[..|b| - 1];
    }
  }

  lemma {:induction false} HistoryOfBatch(batch: seq<Sample>, agent: string)
    requires OncePerAgent(batch)
    ensures |History(batch, agent)| <= 1
    ensures forall s | s in batch && s.agent == agent :: History(batch, agent) == [s.cursor]
    ensures (forall s | s in batch :: s.agent != agent) ==> History(batch, agent) == []
  {
    if batch != [] {
      var n := |batch| - 1;
      HistoryOfBatch(batch[..n], agent);
      assert batch == batch[..n] + [batch[n]];
      if batch[n].agent == agent {
        assert forall s | s in batch[..n] :: s.agent != agent;
      }
    }
  }

  lemma {:induction false} RecordedMeans(lastEmitted: map<string, Option<nat>>, sent: seq<Sample>, agent: string)
    requires OncePerAgent(sent)
    ensures var m := Recorded(lastEmitted, sent);
      && (forall s | s in sent && s.agent == agent :: m[agent] == s.cursor)
      && (agent in lastEmitted && (forall s | s in sent :: s.agent != agent) ==> m[agent] == lastEmitted[agent])
  {
    if sent != [] {
      var n := |sent| - 1;
      RecordedMeans(lastEmitted, sent[..n], agent);
      assert sent == sent[..n] + [sent[n]];
      if sent[n].agent == agent {
        forall s | s in sent && s.agent == agent ensures s == sent[n] {
          var i :| 0 <= i <= n && sent[i] == s;
        }
      }
    }
  }

  // ----- The invariant -----------------------------------------------------------

  predicate NoRepeat(cursors: seq<Option<nat>>) {
    forall i | 0 < i < |cursors| :: cursors[i - 1] != cursors[i]
  }

  /** The memory of an agent is its last heartbeat in the log, and no heartbeat repeats the one before. */
  predicate Faithful(e: Emitter, agent: string) {
    var sent := History(e.log, agent);
    && NoRepeat(sent)
    && (agent in e.lastEmitted <==> sent != [])
    && (sent != [] ==> e.lastEmitted[agent] == sent[|sent| - 1])
  }

  lemma NoRepeatMore(cursors: seq<Option<nat>>, c: Option<nat>)
    requires NoRepeat(cursors) && (cursors != [] ==> cursors[|cursors| - 1] != c)
    ensures NoRepeat(cursors + [c])
  {
  }

  lemma SendKeeps(e: Emitter, sent: seq<Sample>, agent: string)
    requires OncePerAgent(sent)
    requires forall s | s in sent :: Moved(e.lastEmitted, s)
    requires Faithful(e, agent)
    ensures Faithful(Emitter(Recorded(e.lastEmitted, sent), e.log + sent), agent)
  {
    RecordedMeans(e.lastEmitted, sent, agent);
    HistoryOfConcat(e.log, sent, agent);
    HistoryOfBatch(sent, agent);
    var before := History(e.log, agent);
    if s :| s in sent && s.agent == agent {
      NoRepeatMore(before, s.cursor);
      assert (before + [s.cursor])[|before|] == s.cursor;
    } else {
      assert before + [] == before;
    }
  }

  lemma TickKeeps(e: Emitter, tick: Tick, agent: string)
    requires OncePerAgent(tick.samples)
    requires Faithful(e, agent)
    ensures Faithful(Ticked(e, tick), agent)
  {
    DueOncePerAgent(e.lastEmitted, tick.samples);
    SendKeeps(e, Due(e.lastEmitted, tick.samples), agent);
  }

  /** Over any run, with any appends failing, no agent's heartbeats repeat a cursor back to back. */
  lemma {:induction false} RunKeeps(ticks: seq<Tick>, agent: string)
    requires forall t | t in ticks :: OncePerAgent(t.samples)
    ensures Faithful(Run(ticks), agent)
  {
    if ticks != [] {
      var n := |ticks| - 1;
      assert forall t | t in ticks[..n] :: t in ticks;
      RunKeeps(ticks[..n], agent);
      TickKeeps(Run(ticks[..n]), ticks[n], agent);
    }
  }

  /** A tick that succeeds or has nothing to send remembers every cursor it sampled. */
  lemma TickRemembers(e: Emitter, tick: Tick, s: Sample)
    requires OncePerAgent(tick.samples) && s in tick.samples
    requires tick.appendSucceeds || Due(e.lastEmitted, tick.samples) == []
    ensures var memory := Ticked(e, tick).lastEmitted;
      s.agent in memory && memory[s.agent] == s.cursor
  {
    var due := Due(e.lastEmitted, tick.samples);
    DueOncePerAgent(e.lastEmitted, tick.samples);
    RecordedMeans(e.lastEmitted, due, s.agent);
    if s !in due {
      forall other | other in due ensures other.agent != s.agent { }
    }
  }

  /** After a tick that succeeds or has nothing to send, every sampled agent's last heartbeat carries its cursor. */
  lemma TickCatchesUp(ticks: seq<Tick>, tick: Tick, s: Sample)
    requires forall t | t in ticks + [tick] :: OncePerAgent(t.samples)
    requires s in tick.samples
    requires tick.appendSucceeds || Due(Run(ticks).lastEmitted, tick.samples) == []
    ensures var sent := History(Run(ticks + [tick]).log, s.agent);
      sent != [] && sent[|sent| - 1] == s.cursor
  {
    assert (ticks + [tick])[..|ticks|] == ticks;
    assert tick in ticks + [tick];
    RunKeeps(ticks + [tick], s.agent);
    TickRemembers(Run(ticks), tick, s);
  }

  class HeartbeatEmitter {
    var lastEmittedCursor: map<string, Option<nat>>
    ghost var log: seq<Sample>

    constructor ()
      ensures Emitter(lastEmittedCursor, log) == Run([])
    {
      lastEmittedCursor, log := map[], [];
    }

    /** One tick; `appendSucceeds` is what the store answers if it is asked. */
    method OnTick(samples: seq<Sample>, appendSucceeds: bool) returns (heartbeats: seq<Sample>)
      modifies this
      ensures heartbeats == Due(old(lastEmittedCursor), samples)
      ensures Emitter(lastEmittedCursor, log) ==
              Ticked(Emitter(old(lastEmittedCursor), old(log)), Tick(samples, appendSucceeds))
    {
      heartbeats := [];
      for i := 0 to |samples|
        invariant heartbeats == Due(lastEmittedCursor, samples[..i])
      {
        assert samples[..i + 1][..i] == samples[..i];
        var had := samples[i].agent in lastEmittedCursor;
        if !(had && lastEmittedCursor[samples[i].agent] == samples[i].cursor) {
          heartbeats := heartbeats + [samples[i]];
        }
      }
      assert samples[..|samples|] == samples;
      if heartbeats != [] && appendSucceeds {
        log := log + heartbeats;
        Record(heartbeats);
      }
    }

    /** After a successful append: every heartbeat sent becomes its agent's last. */
    method Record(emitted: seq<Sample>)
      modifies this`lastEmittedCursor
      ensures lastEmittedCursor == Recorded(old(lastEmittedCursor), emitted)
    {
      for i := 0 to |emitted|
        invariant lastEmittedCursor == Recorded(old(lastEmittedCursor), emitted[..i])
      {
        assert emitted[..i + 1][..i] == emitted[..i];
        lastEmittedCursor := lastEmittedCursor[emitted[i].agent := emitted[i].cursor];
      }
      assert emitted[..|emitted|] == emitted;
    }
  }
}

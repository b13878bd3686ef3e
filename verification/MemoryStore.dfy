/**
 * The in-memory event store (packages/store-memory/src/MemoryStore.ts) as a machine of small
 * steps, and the class whose methods are runs of those steps.
 */
module MemoryStore {
  import opened Wrappers
  import opened Events
  import Ulid

  /** The capacity of the sliding pubsub. */
  const WINDOW: nat := 1024

  /** What one envelope of a batch reads from its surroundings. */
  datatype Tick = Tick(draw: Ulid.Draw, timestamp: int)

  ghost predicate ValidTicks(ticks: seq<Tick>) {
    forall i :: 0 <= i < |ticks| ==> |ticks[i].draw.rand| == 10
  }

  /**
   * One `subscribe` call.  `start`, `floor`, `got`, `lost` and `gap` are the model's bookkeeping:
   * the snapshot's length, the smallest id the store could still mint, what the consumer has been
   * handed, how many wanted events slid out of the window before it took them, and how many it is
   * handed ahead of the first of those.
   */
  datatype Subscriber = Subscriber(
    cursor: Cursor,
    p: Event -> bool,
    snapshotMax: Option<nat>,
    replay: seq<Event>,
    queue: seq<Event>,
    start: nat,
    floor: nat,
    got: seq<Event>,
    lost: nat,
    gap: Option<nat>)

  datatype State = State(log: seq<Event>, last: real, unpublished: seq<Event>, subs: seq<Subscriber>)

  /**
   * `append` holds the lock while it stores a whole batch and then publishes it event by event;
   * consumers may take from their queues between any two of those moments, subscribers may join
   * only when no batch is half published.
   */
  datatype Step =
    | BeginAppend(inputs: seq<EventInput>, ticks: seq<Tick>)
    | Publish
    | Subscribe(cursor: Cursor, p: Event -> bool)
    | Take(i: nat)

  const INIT := State([], 0.0, [], [])

  // ----- minting ------------------------------------------------------------------

  /** The smallest id with the given stamp. */
  function IdFloor(stamp: nat): nat {
    stamp * Ulid.RANDOM_LIMIT
  }

  /** Where the id with this stamp and these random bytes stands (`Ulid.IdOrderOfText`). */
  function IdNumber(stamp: nat, rand: seq<Byte>): nat {
    IdFloor(stamp % Ulid.STAMP_LIMIT) + Ulid.BytesNumber(rand)
  }

  function Envelope(input: EventInput, id: nat, timestamp: int): Event {
    Event(id, input.kind,
      if input.actor.Some? then input.actor.value else "system",
      if input.source.Some? then input.source.value else "cli",
      timestamp, input.causedBy, input.payload)
  }

  /** The envelopes of a batch and the factory's stamp afterwards. */
  function Mint(last: real, inputs: seq<EventInput>, ticks: seq<Tick>): (r: (seq<Event>, real))
    requires last >= 0.0 && |inputs| == |ticks|
    ensures |r.0| == |inputs| && r.1 >= last
  {
    if |inputs| == 0 then ([], last) else
      var n := |inputs| - 1;
      var (es, l) := Mint(last, inputs[..n], ticks[..n]);
      var l' := Ulid.NextStamp(l, ticks[n].draw.now);
      var id := IdNumber(l'.Floor, ticks[n].draw.rand);
      (es + [Envelope(inputs[n], id, ticks[n].timestamp)], l')
  }

  lemma IdFloorMonotone(a: nat, b: nat)
    requires a <= b
    ensures IdFloor(a) <= IdFloor(b)
  {
  }

  lemma MintedId(stamp: nat, rand: seq<Byte>)
    requires |rand| == 10 && stamp < Ulid.STAMP_LIMIT
    ensures IdFloor(stamp) <= IdNumber(stamp, rand) < IdFloor(stamp + 1)
  {
    Ulid.TenBytes(rand);
    Ulid.ModUnique(stamp, 0, Ulid.STAMP_LIMIT, stamp);
  }

  ghost predicate MintedBetween(es: seq<Event>, low: nat, high: nat) {
    Ordered(es) && forall i :: 0 <= i < |es| ==> low <= es[i].id < high
  }

  lemma BetweenAppend(es: seq<Event>, low: nat, mid: nat, e: Event, high: nat)
    requires MintedBetween(es, low, mid) && low <= mid <= e.id < high
    ensures MintedBetween(es + [e], low, high)
  {
  }

  /** The ids start at `low` and stop below everything past the factory's stamp. */
  ghost predicate MintedFrom(low: nat, minted: (seq<Event>, real)) {
    minted.1 >= 0.0 && low <= IdFloor(minted.1.Floor + 1) && MintedBetween(minted.0, low, IdFloor(minted.1.Floor + 1))
  }

  /** One more id, after everything up to the stamp so far and before everything past its own. */
  lemma MintOneMore(low: nat, minted: (seq<Event>, real), input: EventInput, tick: Tick)
    requires MintedFrom(low, minted) && |tick.draw.rand| == 10
    requires Ulid.NextStamp(minted.1, tick.draw.now).Floor < Ulid.STAMP_LIMIT
    ensures var l := Ulid.NextStamp(minted.1, tick.draw.now);
            MintedFrom(low, (minted.0 + [Envelope(input, IdNumber(l.Floor, tick.draw.rand), tick.timestamp)], l))
  {
    var l := Ulid.NextStamp(minted.1, tick.draw.now);
    MintedId(l.Floor, tick.draw.rand);
    IdFloorMonotone(minted.1.Floor + 1, l.Floor);
    BetweenAppend(minted.0, low, IdFloor(minted.1.Floor + 1),
      Envelope(input, IdNumber(l.Floor, tick.draw.rand), tick.timestamp), IdFloor(l.Floor + 1));
  }

  /** A batch's ids lie strictly between everything minted before and everything minted after. */
  lemma {:induction false} MintAscends(last: real, inputs: seq<EventInput>, ticks: seq<Tick>)
    requires last >= 0.0 && |inputs| == |ticks| && ValidTicks(ticks)
    requires Mint(last, inputs, ticks).1.Floor < Ulid.STAMP_LIMIT
    ensures MintedFrom(IdFloor(last.Floor + 1), Mint(last, inputs, ticks))
  {
    if |inputs| > 0 {
      var n := |inputs| - 1;
      MintAscends(last, inputs[..n], ticks[..n]);
      MintOneMore(IdFloor(last.Floor + 1), Mint(last, inputs[..n], ticks[..n]), inputs[n], ticks[n]);
    }
  }

  /** No id is behind the clock reading it was minted at. */
  lemma {:induction false} MintFollowsClock(last: real, inputs: seq<EventInput>, ticks: seq<Tick>, i: nat)
    requires last >= 0.0 && |inputs| == |ticks| && ValidTicks(ticks) && i < |inputs|
    requires Mint(last, inputs, ticks).1.Floor < Ulid.STAMP_LIMIT && ticks[i].draw.now.Floor >= 0
    ensures Mint(last, inputs, ticks).0[i].id >= IdFloor(ticks[i].draw.now.Floor)
  {
    var n := |inputs| - 1;
    if i < n {
      MintFollowsClock(last, inputs[..n], ticks[..n], i);
    } else {
      var stamp := Mint(last, inputs, ticks).1.Floor;
      MintedId(stamp, ticks[n].draw.rand);
      IdFloorMonotone(ticks[n].draw.now.Floor, stamp);
    }
  }

  /**
   * A restarted factory continues an old log in order as long as the clock has passed the log's
   * last stamp, although it has forgotten that stamp.
   */
  lemma RestartContinues(log: seq<Event>, clock: nat, inputs: seq<EventInput>, ticks: seq<Tick>)
    requires Ordered(log) && forall k :: 0 <= k < |log| ==> log[k].id < IdFloor(clock)
    requires |inputs| == |ticks| && ValidTicks(ticks) && Mint(0.0, inputs, ticks).1.Floor < Ulid.STAMP_LIMIT
    requires forall k :: 0 <= k < |ticks| ==> ticks[k].draw.now.Floor >= clock
    ensures Ordered(log + Mint(0.0, inputs, ticks).0)
  {
    var es := Mint(0.0, inputs, ticks).0;
    MintAscends(0.0, inputs, ticks);
    forall k | 0 <= k < |es| ensures es[k].id >= IdFloor(clock) {
      MintFollowsClock(0.0, inputs, ticks, k);
      IdFloorMonotone(clock, ticks[k].draw.now.Floor);
    }
  }

  /** The envelope of an input: what was given is kept, what was not has its default. */
  ghost predicate EnvelopeOf(e: Event, input: EventInput, tick: Tick) {
    && e.kind == input.kind && e.payload == input.payload && e.causedBy == input.causedBy
    && e.timestamp == tick.timestamp
    && (if input.actor.Some? then Some(e.actor) == input.actor else e.actor == "system")
    && (if input.source.Some? then Some(e.source) == input.source else e.source == "cli")
  }

  /** Envelopes carry their inputs, position by position. */
  lemma {:induction false} MintKeepsInputs(last: real, inputs: seq<EventInput>, ticks: seq<Tick>)
    requires last >= 0.0 && |inputs| == |ticks|
    ensures forall i :: 0 <= i < |inputs| ==> EnvelopeOf(Mint(last, inputs, ticks).0[i], inputs[i], ticks[i])
  {
    if |inputs| > 0 {
      var n := |inputs| - 1;
      MintKeepsInputs(last, inputs[..n], ticks[..n]);
      var es := Mint(last, inputs[..n], ticks[..n]).0;
      forall i | 0 <= i < n ensures EnvelopeOf(es[i], inputs[i], ticks[i]) {
        assert EnvelopeOf(es[i], inputs[..n][i], ticks[..n][i]);
      }
    }
  }

  // ----- steps --------------------------------------------------------------------

  function SnapshotMax(log: seq<Event>): Option<nat> {
    if |log| > 0 then Some(log[|log| - 1].id) else None
  }

  function Replay(log: seq<Event>, cursor: Cursor, p: Event -> bool): seq<Event> {
    match cursor
    case Latest => []
    case Earliest => Select(log, p)
    case At(_) => Select(log, Wants(cursor, p))
  }

  /** The filter on the live side: the cursor plays no part in it. */
  function Live(sub: Subscriber): Event -> bool {
    (e: Event) => sub.p(e) && (sub.snapshotMax.None? || e.id > sub.snapshotMax.value)
  }

  function NewSubscriber(s: State, cursor: Cursor, p: Event -> bool): Subscriber
    requires s.last >= 0.0
  {
    Subscriber(cursor, p, SnapshotMax(s.log), Replay(s.log, cursor, p), [],
      |s.log|, IdFloor(s.last.Floor + 1), [], 0, None)
  }

  /** The first `n` events handed out reach past the gap. */
  predicate PastGap(sub: Subscriber, n: nat) {
    sub.gap.Some? && n > sub.gap.value
  }

  /** What is handed out before anything from the queue. */
  function Taken(sub: Subscriber): seq<Event> {
    sub.got + sub.replay
  }

  /** The oldest queued event leaves untaken. */
  function Slide(sub: Subscriber): Subscriber
    requires |sub.queue| > 0
  {
    if Live(sub)(sub.queue[0]) then
      sub.(queue := sub.queue[1..], lost := sub.lost + 1, gap := if sub.gap.Some? then sub.gap else Some(|Taken(sub)|))
    else sub.(queue := sub.queue[1..])
  }

  /** A full window drops its oldest event. */
  function Offer(sub: Subscriber, e: Event): Subscriber {
    if |sub.queue| < WINDOW then sub.(queue := sub.queue + [e])
    else var slid := Slide(sub); slid.(queue := slid.queue + [e])
  }

  /** The consumer pulls once: the replay first, then the queue through the live filter. */
  function Pull(sub: Subscriber): Subscriber {
    if |sub.replay| > 0 then sub.(replay := sub.replay[1..], got := sub.got + [sub.replay[0]])
    else if |sub.queue| > 0 then
      sub.(queue := sub.queue[1..], got := if Live(sub)(sub.queue[0]) then sub.got + [sub.queue[0]] else sub.got)
    else sub
  }

  function OfferAll(subs: seq<Subscriber>, e: Event): (r: seq<Subscriber>)
    ensures |r| == |subs|
  {
    seq(|subs|, i requires 0 <= i < |subs| => Offer(subs[i], e))
  }

  function PublishOne(s: State): State
    requires |s.unpublished| > 0
  {
    s.(unpublished := s.unpublished[1..], subs := OfferAll(s.subs, s.unpublished[0]))
  }

  function Join(s: State, cursor: Cursor, p: Event -> bool): State
    requires s.last >= 0.0
  {
    s.(subs := s.subs + [NewSubscriber(s, cursor, p)])
  }

  /** A step that is not enabled (the lock is held, nothing to publish) leaves the state alone. */
  function Next(s: State, step: Step): (r: State)
    requires s.last >= 0.0
    ensures r.last >= s.last
  {
    match step
    case BeginAppend(inputs, ticks) =>
      if |s.unpublished| > 0 || |inputs| != |ticks| then s
      else
        var (es, last) := Mint(s.last, inputs, ticks);
        s.(log := s.log + es, last := last, unpublished := es)
    case Publish =>
      if |s.unpublished| == 0 then s else PublishOne(s)
    case Subscribe(cursor, p) =>
      if |s.unpublished| > 0 then s else Join(s, cursor, p)
    case Take(i) =>
      if i >= |s.subs| then s else s.(subs := s.subs[i := Pull(s.subs[i])])
  }

  ghost predicate ValidStep(step: Step) {
    step.BeginAppend? ==> ValidTicks(step.ticks)
  }

  ghost predicate ValidSteps(steps: seq<Step>) {
    forall i :: 0 <= i < |steps| ==> ValidStep(steps[i])
  }

  function Run(s: State, steps: seq<Step>): (r: State)
    requires s.last >= 0.0
    ensures r.last >= s.last
  {
    if |steps| == 0 then s else Next(Run(s, steps[..|steps| - 1]), steps[|steps| - 1])
  }

  // ----- what a subscriber is owed ------------------------------------------------

  /** "latest" stands for whatever was last when the subscriber joined. */
  function WantsOf(sub: Subscriber): Event -> bool {
    (e: Event) =>
      && (sub.cursor.At? ==> e.id > sub.cursor.id)
      && (sub.cursor.Latest? && sub.snapshotMax.Some? ==> e.id > sub.snapshotMax.value)
      && sub.p(e)
  }

  /** The cursor names no id the store has yet to mint. */
  predicate Covered(sub: Subscriber) {
    sub.cursor.At? ==> sub.cursor.id < sub.floor
  }

  /** Delivered, or waiting to be. */
  function Held(sub: Subscriber): seq<Event> {
    sub.got + sub.replay + Select(sub.queue, Live(sub))
  }

  function Published(s: State): seq<Event>
    requires |s.unpublished| <= |s.log|
  {
    s.log[..|s.log| - |s.unpublished|]
  }

  ghost predicate SubShape(pub: seq<Event>, sub: Subscriber) {
    && sub.start <= |pub|
    && sub.snapshotMax == SnapshotMax(pub[..sub.start])
    && |sub.queue| <= WINDOW && |sub.queue| <= |pub| - sub.start
    && sub.queue == pub[|pub| - |sub.queue|..]
    && (sub.gap.None? <==> sub.lost == 0)
    && (sub.gap.Some? ==> sub.gap.value <= |Taken(sub)| && (|sub.replay| > 0 ==> sub.gap.value == |Taken(sub)|))
  }

  /** In order, without repeats, nothing unwanted. */
  ghost predicate Sound(pub: seq<Event>, held: seq<Event>, p: Event -> bool) {
    Ordered(held) && forall e :: e in held ==> e in pub && p(e)
  }

  /** Complete but for the `lost` events that slid out. */
  ghost predicate Complete(pub: seq<Event>, held: seq<Event>, p: Event -> bool, lost: nat) {
    && |held| + lost == |Select(pub, p)|
    && (lost == 0 ==> held == Select(pub, p))
  }

  /** Nothing is missing ahead of the gap, and what comes first after it is not what was asked for next. */
  ghost predicate UpToGap(asked: seq<Event>, taken: seq<Event>, gap: Option<nat>) {
    gap.Some? ==>
      && gap.value <= |taken| && taken[..gap.value] <= asked
      && (gap.value < |taken| ==> !(taken[..gap.value + 1] <= asked))
  }

  ghost predicate SubKeeps(pub: seq<Event>, sub: Subscriber) {
    && Sound(pub, Held(sub), sub.p)
    && (Covered(sub) ==>
          && Sound(pub, Held(sub), WantsOf(sub)) && Complete(pub, Held(sub), WantsOf(sub), sub.lost)
          && UpToGap(Select(pub, WantsOf(sub)), Taken(sub), sub.gap))
  }

  ghost predicate SubInv(log: seq<Event>, pub: seq<Event>, sub: Subscriber) {
    && SubShape(pub, sub) && SubKeeps(pub, sub)
    && |pub| <= |log|
    && forall i :: sub.start <= i < |log| ==> log[i].id >= sub.floor
  }

  ghost predicate AllSubs(log: seq<Event>, pub: seq<Event>, high: nat, subs: seq<Subscriber>) {
    forall i :: 0 <= i < |subs| ==> SubInv(log, pub, subs[i]) && subs[i].floor <= high
  }

  /** Order is conditional on the last stamp still fitting ten digits; the stamp only grows. */
  ghost predicate LogInv(log: seq<Event>, last: real, unpublished: seq<Event>) {
    && last >= 0.0
    && |unpublished| <= |log|
    && unpublished == log[|log| - |unpublished|..]
    && (last.Floor < Ulid.STAMP_LIMIT ==>
          Ordered(log) && forall i :: 0 <= i < |log| ==> log[i].id < IdFloor(last.Floor + 1))
  }

  ghost predicate Inv(s: State) {
    && LogInv(s.log, s.last, s.unpublished)
    && (s.last.Floor < Ulid.STAMP_LIMIT ==>
          AllSubs(s.log, Published(s), IdFloor(s.last.Floor + 1), s.subs))
  }

  // ----- one subscriber, step by step ---------------------------------------------

  /** Nothing of the log is past the log's last id. */
  lemma NothingPastMax(log: seq<Event>, sub: Subscriber, e: Event)
    requires Ordered(log) && e in log && sub.cursor.Latest? && sub.snapshotMax == SnapshotMax(log)
    ensures !WantsOf(sub)(e)
  {
    var i :| 0 <= i < |log| && log[i] == e;
    assert log[i].id <= log[|log| - 1].id;
  }

  lemma JoinKeeps(s: State, cursor: Cursor, p: Event -> bool)
    requires Inv(s) && |s.unpublished| == 0 && s.last.Floor < Ulid.STAMP_LIMIT
    ensures SubInv(s.log, s.log, NewSubscriber(s, cursor, p))
  {
    var sub := NewSubscriber(s, cursor, p);
    assert s.log[..sub.start] == s.log;
    assert Held(sub) == sub.replay;
    var q := WantsOf(sub);
    if cursor.Latest? {
      forall e | e in s.log ensures !q(e) { NothingPastMax(s.log, sub, e); }
      SelectNone(s.log, q);
    } else {
      var r := if cursor.Earliest? then p else Wants(cursor, p);
      SelectAgree(s.log, r, q);
      SelectMembers(s.log, r);
      SelectOrdered(s.log, r);
    }
  }

  lemma SoundGap(pub: seq<Event>, a: seq<Event>, x: seq<Event>, b: seq<Event>, p: Event -> bool)
    requires Sound(pub, a + x + b, p)
    ensures Sound(pub, a + b, p)
  {
    forall i, j | 0 <= i < j < |a + b| ensures (a + b)[i].id < (a + b)[j].id {
      var i', j' := if i < |a| then i else i + |x|, if j < |a| then j else j + |x|;
      assert (a + b)[i] == (a + x + b)[i'] && (a + b)[j] == (a + x + b)[j'];
    }
    forall e | e in a + b ensures e in a + x + b { }
  }

  lemma SoundAppend(pub: seq<Event>, held: seq<Event>, p: Event -> bool, e: Event)
    requires Sound(pub, held, p) && p(e)
    requires forall i :: 0 <= i < |pub| ==> pub[i].id < e.id
    ensures Sound(pub + [e], held + [e], p)
  {
    forall i | 0 <= i < |held| ensures held[i].id < e.id {
      assert held[i] in pub;
    }
  }

  lemma HeldSplits(sub: Subscriber) returns (head: seq<Event>)
    requires |sub.queue| > 0
    ensures head == if Live(sub)(sub.queue[0]) then [sub.queue[0]] else []
    ensures Held(sub) == sub.got + sub.replay + head + Select(sub.queue[1..], Live(sub))
  {
    head := Select([sub.queue[0]], Live(sub));
    assert sub.queue == [sub.queue[0]] + sub.queue[1..];
    SelectConcat([sub.queue[0]], sub.queue[1..], Live(sub));
  }

  /** What begins a longer read begins the read, if it is in order and all of it was read. */
  lemma BeginsEarlier(x: seq<Event>, y: seq<Event>, all: seq<Event>, more: seq<Event>)
    requires Ordered(x) && (forall e :: e in x ==> e in all) && x + y <= all + more
    ensures x <= all
  {
    forall k | 0 <= k < |x| ensures x[k] == (all + more)[k] { assert (x + y)[k] == x[k]; }
    if |x| > 0 {
      assert x[|x| - 1] in all;
      var j :| 0 <= j < |all| && all[j] == x[|x| - 1];
      assert (all + more)[j] == all[j];
    }
  }

  /** What has been taken is in order and among what was asked for. */
  lemma TakenIsAsked(pub: seq<Event>, sub: Subscriber)
    requires Covered(sub) && SubKeeps(pub, sub)
    ensures Ordered(Taken(sub)) && forall e :: e in Taken(sub) ==> e in Select(pub, WantsOf(sub))
  {
    var taken, held := Taken(sub), Held(sub);
    assert held == taken + Select(sub.queue, Live(sub));
    forall i, j | 0 <= i < j < |taken| ensures taken[i].id < taken[j].id {
      assert held[i] == taken[i] && held[j] == taken[j];
    }
    forall e | e in taken ensures e in Select(pub, WantsOf(sub)) {
      assert e in held;
      SelectMember(pub, WantsOf(sub), e);
    }
  }

  lemma GapGrows(pub: seq<Event>, sub: Subscriber, more: seq<Event>)
    requires Covered(sub) && SubKeeps(pub, sub)
    ensures UpToGap(Select(pub, WantsOf(sub)) + more, Taken(sub), sub.gap)
  {
    var asked, taken := Select(pub, WantsOf(sub)), Taken(sub);
    TakenIsAsked(pub, sub);
    if sub.gap.Some? && sub.gap.value < |taken| {
      var x := taken[..sub.gap.value + 1];
      forall e | e in x ensures e in asked { assert e in taken; }
      assert x + [] == x;
      if x <= asked + more { BeginsEarlier(x, [], asked, more); }
    }
  }

  /** What is held once the oldest queued event is gone. */
  lemma SlideHolds(sub: Subscriber) returns (a: seq<Event>, head: seq<Event>, b: seq<Event>)
    requires |sub.queue| > 0
    ensures head == if Live(sub)(sub.queue[0]) then [sub.queue[0]] else []
    ensures Held(sub) == a + head + b && Held(Slide(sub)) == a + b
    ensures head == [] ==> a + b == a + head + b
  {
    head := HeldSplits(sub);
    a, b := sub.got + sub.replay, Select(sub.queue[1..], Live(sub));
    assert Live(Slide(sub)) == Live(sub);
  }

  /** The first wanted event to slide out leaves a gap right after what has been taken. */
  lemma SlideGap(pub: seq<Event>, sub: Subscriber)
    requires Covered(sub) && SubShape(pub, sub) && SubKeeps(pub, sub) && |sub.queue| > 0
    ensures UpToGap(Select(pub, WantsOf(sub)), Taken(Slide(sub)), Slide(sub).gap)
  {
    if sub.gap.None? { assert Held(sub) == Taken(sub) + Select(sub.queue, Live(sub)); }
  }

  lemma SlideShape(pub: seq<Event>, sub: Subscriber)
    requires SubShape(pub, sub) && |sub.queue| > 0
    ensures SubShape(pub, Slide(sub)) && WantsOf(Slide(sub)) == WantsOf(sub)
  {
  }

  lemma SlideKeeps(pub: seq<Event>, sub: Subscriber)
    requires SubShape(pub, sub) && SubKeeps(pub, sub) && |sub.queue| > 0
    ensures SubShape(pub, Slide(sub)) && SubKeeps(pub, Slide(sub))
  {
    var a, head, b := SlideHolds(sub);
    SlideShape(pub, sub);
    SoundGap(pub, a, head, b, sub.p);
    if Covered(sub) {
      SoundGap(pub, a, head, b, WantsOf(sub));
      SlideGap(pub, sub);
    }
  }

  lemma RoomShape(pub: seq<Event>, sub: Subscriber, e: Event)
    requires SubShape(pub, sub) && |sub.queue| < WINDOW
    ensures var more := sub.(queue := sub.queue + [e]);
            && SubShape(pub + [e], more) && Live(more) == Live(sub) && WantsOf(more) == WantsOf(sub)
            && Held(more) == Held(sub) + Select([e], Live(sub))
  {
    assert (pub + [e])[..sub.start] == pub[..sub.start];
    SelectConcat(sub.queue, [e], Live(sub));
  }

  /** A published event joins the queue of a subscriber with room for it. */
  lemma RoomKeeps(pub: seq<Event>, sub: Subscriber, e: Event)
    requires SubShape(pub, sub) && SubKeeps(pub, sub) && |sub.queue| < WINDOW
    requires e.id >= sub.floor && forall i :: 0 <= i < |pub| ==> pub[i].id < e.id
    ensures var more := sub.(queue := sub.queue + [e]);
            SubShape(pub + [e], more) && SubKeeps(pub + [e], more)
  {
    var held := Held(sub) + Select([e], Live(sub));
    RoomShape(pub, sub, e);
    if Live(sub)(e) {
      assert held == Held(sub) + [e];
      SoundAppend(pub, Held(sub), sub.p, e);
    } else {
      assert held == Held(sub);
    }
    if Covered(sub) {
      RoomCompletes(pub, sub, e, held);
      SelectConcat(pub, [e], WantsOf(sub));
      GapGrows(pub, sub, Select([e], WantsOf(sub)));
    }
  }

  lemma RoomCompletes(pub: seq<Event>, sub: Subscriber, e: Event, held: seq<Event>)
    requires Covered(sub) && SubKeeps(pub, sub) && Live(sub)(e) == WantsOf(sub)(e)
    requires forall i :: 0 <= i < |pub| ==> pub[i].id < e.id
    requires held == Held(sub) + Select([e], Live(sub))
    ensures Sound(pub + [e], held, WantsOf(sub)) && Complete(pub + [e], held, WantsOf(sub), sub.lost)
  {
    SelectConcat(pub, [e], WantsOf(sub));
    if WantsOf(sub)(e) {
      assert held == Held(sub) + [e];
      SoundAppend(pub, Held(sub), WantsOf(sub), e);
    } else {
      assert held == Held(sub);
    }
  }

  lemma OfferKeeps(pub: seq<Event>, sub: Subscriber, e: Event)
    requires SubShape(pub, sub) && SubKeeps(pub, sub)
    requires e.id >= sub.floor && forall i :: 0 <= i < |pub| ==> pub[i].id < e.id
    ensures SubShape(pub + [e], Offer(sub, e)) && SubKeeps(pub + [e], Offer(sub, e))
  {
    if |sub.queue| < WINDOW {
      RoomKeeps(pub, sub, e);
    } else {
      SlideKeeps(pub, sub);
      RoomKeeps(pub, Slide(sub), e);
    }
  }

  /** Taking moves events from the waiting side to the delivered side. */
  lemma PullHolds(sub: Subscriber)
    ensures Held(Pull(sub)) == Held(sub) && sub.got <= Pull(sub).got
  {
    var next := Pull(sub);
    assert Live(next) == Live(sub);
    if |sub.replay| > 0 {
      assert sub.replay == [sub.replay[0]] + sub.replay[1..];
    } else if |sub.queue| > 0 {
      var head := HeldSplits(sub);
    }
  }

  /** Behind the snapshot the live filter asks for what the subscriber asked for. */
  lemma QueueIsWanted(pub: seq<Event>, sub: Subscriber, e: Event)
    requires Ordered(pub) && Covered(sub) && SubShape(pub, sub) && SubKeeps(pub, sub) && e in sub.queue
    ensures Live(sub)(e) == WantsOf(sub)(e)
  {
    var k :| 0 <= k < |sub.queue| && sub.queue[k] == e;
    assert pub[|pub| - |sub.queue| + k] == e;
    if sub.start > 0 { assert pub[..sub.start][sub.start - 1] == pub[sub.start - 1]; }
    if Live(sub)(e) {
      SelectMember(sub.queue, Live(sub), e);
      assert e in Held(sub);
    }
  }

  /** What was asked for ahead of the queue was taken or lost. */
  lemma AheadOfQueue(pub: seq<Event>, sub: Subscriber)
    requires Ordered(pub) && Covered(sub) && SubShape(pub, sub) && SubKeeps(pub, sub)
    ensures |Select(pub[..|pub| - |sub.queue|], WantsOf(sub))| == |Taken(sub)| + sub.lost
  {
    var n := |pub| - |sub.queue|;
    forall e | e in sub.queue ensures Live(sub)(e) == WantsOf(sub)(e) { QueueIsWanted(pub, sub, e); }
    SelectAgree(sub.queue, Live(sub), WantsOf(sub));
    assert pub == pub[..n] + sub.queue;
    SelectConcat(pub[..n], sub.queue, WantsOf(sub));
    assert Held(sub) == Taken(sub) + Select(sub.queue, Live(sub));
  }

  /** Behind a gap, the next queued event does not follow what was taken. */
  lemma NextIsPastGap(pub: seq<Event>, sub: Subscriber)
    requires Ordered(pub) && Covered(sub) && SubShape(pub, sub) && SubKeeps(pub, sub)
    requires sub.lost > 0 && |sub.queue| > 0 && Live(sub)(sub.queue[0])
    ensures !(Taken(sub) + [sub.queue[0]] <= Select(pub, WantsOf(sub)))
  {
    var e, asked, n := sub.queue[0], Select(pub, WantsOf(sub)), |pub| - |sub.queue|;
    AheadOfQueue(pub, sub);
    QueueIsWanted(pub, sub, e);
    assert pub[n] == e;
    SelectAt(pub, WantsOf(sub), n);
    SelectOrdered(pub, WantsOf(sub));
    assert asked[|Taken(sub)|].id < e.id && (Taken(sub) + [e])[|Taken(sub)|] == e;
  }

  /** Taking one more event behind the gap. */
  lemma OneMorePastGap(asked: seq<Event>, taken: seq<Event>, e: Event, g: nat)
    requires UpToGap(asked, taken, Some(g)) && !(taken + [e] <= asked)
    ensures UpToGap(asked, taken + [e], Some(g))
  {
    assert (taken + [e])[..g] == taken[..g];
    if g < |taken| {
      assert (taken + [e])[..g + 1] == taken[..g + 1];
    } else {
      assert (taken + [e])[..g + 1] == taken + [e];
    }
  }

  /** What a pull does to the events taken. */
  lemma PullTakes(sub: Subscriber)
    ensures Taken(Pull(sub)) ==
              Taken(sub) +
                if |sub.replay| == 0 && |sub.queue| > 0 && Live(sub)(sub.queue[0]) then [sub.queue[0]] else []
  {
    if |sub.replay| > 0 { assert sub.replay == [sub.replay[0]] + sub.replay[1..]; }
  }

  lemma PullGap(pub: seq<Event>, sub: Subscriber)
    requires Ordered(pub) && Covered(sub) && SubShape(pub, sub) && SubKeeps(pub, sub)
    ensures UpToGap(Select(pub, WantsOf(sub)), Taken(Pull(sub)), Pull(sub).gap)
  {
    PullTakes(sub);
    if sub.gap.Some? && |sub.replay| == 0 && |sub.queue| > 0 && Live(sub)(sub.queue[0]) {
      NextIsPastGap(pub, sub);
      OneMorePastGap(Select(pub, WantsOf(sub)), Taken(sub), sub.queue[0], sub.gap.value);
    }
  }

  lemma PullShape(pub: seq<Event>, sub: Subscriber)
    requires SubShape(pub, sub)
    ensures SubShape(pub, Pull(sub))
  {
    PullTakes(sub);
  }

  lemma PullKeeps(pub: seq<Event>, sub: Subscriber)
    requires Ordered(pub) && SubShape(pub, sub) && SubKeeps(pub, sub)
    ensures SubShape(pub, Pull(sub)) && SubKeeps(pub, Pull(sub))
  {
    if Covered(sub) { PullGap(pub, sub); }
    PullHolds(sub);
    PullShape(pub, sub);
    assert WantsOf(Pull(sub)) == WantsOf(sub);
  }

  /** A pull hands out at most one event and leaves the subscription's terms alone. */
  lemma PullHands(sub: Subscriber) returns (handed: seq<Event>)
    ensures |handed| <= 1 && Pull(sub).got == sub.got + handed
    ensures Pull(sub).cursor == sub.cursor && Pull(sub).p == sub.p && Pull(sub).floor == sub.floor
    ensures Pull(sub).snapshotMax == sub.snapshotMax && Pull(sub).lost == sub.lost && Pull(sub).gap == sub.gap
  {
    handed := Pull(sub).got[|sub.got|..];
  }

  // ----- every run ----------------------------------------------------------------

  /** A stored batch changes nothing for the subscribers until it is published. */
  lemma SubsSeeAppend(log: seq<Event>, es: seq<Event>, subs: seq<Subscriber>, mid: nat, high: nat)
    requires AllSubs(log, log, mid, subs) && MintedBetween(es, mid, high) && mid <= high
    ensures AllSubs(log + es, log, high, subs)
  {
    forall i | 0 <= i < |subs| ensures SubInv(log + es, log, subs[i]) && subs[i].floor <= high {
      assert SubInv(log, log, subs[i]);
    }
  }

  /** Storing a batch of ids past everything minted so far. */
  lemma StoredKeeps(s: State, es: seq<Event>, last: real)
    requires Inv(s) && |s.unpublished| == 0 && last >= s.last
    requires last.Floor < Ulid.STAMP_LIMIT ==> MintedBetween(es, IdFloor(s.last.Floor + 1), IdFloor(last.Floor + 1))
    ensures Inv(s.(log := s.log + es, last := last, unpublished := es))
  {
    var s' := s.(log := s.log + es, last := last, unpublished := es);
    assert Published(s') == s.log == Published(s);
    if last.Floor < Ulid.STAMP_LIMIT {
      var mid, high := IdFloor(s.last.Floor + 1), IdFloor(last.Floor + 1);
      IdFloorMonotone(s.last.Floor + 1, last.Floor + 1);
      SubsSeeAppend(s.log, es, s.subs, mid, high);
    }
  }

  lemma AppendKeeps(s: State, inputs: seq<EventInput>, ticks: seq<Tick>)
    requires Inv(s) && ValidTicks(ticks) && |s.unpublished| == 0 && |inputs| == |ticks|
    ensures Inv(Next(s, BeginAppend(inputs, ticks)))
  {
    var (es, last) := Mint(s.last, inputs, ticks);
    if last.Floor < Ulid.STAMP_LIMIT { MintAscends(s.last, inputs, ticks); }
    StoredKeeps(s, es, last);
  }

  lemma OfferedKeeps(log: seq<Event>, n: nat, sub: Subscriber)
    requires n < |log| && Ordered(log) && SubInv(log, log[..n], sub)
    ensures SubInv(log, log[..n + 1], Offer(sub, log[n])) && Offer(sub, log[n]).floor == sub.floor
  {
    var pub, e, next := log[..n], log[n], Offer(sub, log[n]);
    assert log[..n + 1] == pub + [e];
    OfferKeeps(pub, sub, e);
    assert next.start == sub.start && next.floor == sub.floor;
  }

  lemma OfferAllKeeps(log: seq<Event>, n: nat, high: nat, subs: seq<Subscriber>)
    requires n < |log| && Ordered(log) && AllSubs(log, log[..n], high, subs)
    ensures AllSubs(log, log[..n + 1], high, OfferAll(subs, log[n]))
  {
    forall i | 0 <= i < |subs|
      ensures SubInv(log, log[..n + 1], OfferAll(subs, log[n])[i]) && OfferAll(subs, log[n])[i].floor <= high
    {
      OfferedKeeps(log, n, subs[i]);
    }
  }

  lemma PublishKeeps(s: State)
    requires Inv(s) && |s.unpublished| > 0
    ensures Inv(PublishOne(s))
  {
    var s', n, high := PublishOne(s), |s.log| - |s.unpublished|, IdFloor(s.last.Floor + 1);
    assert s.log[n] == s.unpublished[0] && s'.unpublished == s.log[n + 1..];
    assert Published(s) == s.log[..n] && Published(s') == s.log[..n + 1];
    if s.last.Floor < Ulid.STAMP_LIMIT {
      OfferAllKeeps(s.log, n, high, s.subs);
      assert AllSubs(s'.log, Published(s'), high, s'.subs);
    }
  }

  lemma OneMoreSub(log: seq<Event>, pub: seq<Event>, high: nat, subs: seq<Subscriber>, sub: Subscriber)
    requires AllSubs(log, pub, high, subs) && SubInv(log, pub, sub) && sub.floor <= high
    ensures AllSubs(log, pub, high, subs + [sub])
  {
  }

  lemma SubscribeKeeps(s: State, cursor: Cursor, p: Event -> bool)
    requires Inv(s) && |s.unpublished| == 0
    ensures Inv(Join(s, cursor, p))
  {
    var s', high := Join(s, cursor, p), IdFloor(s.last.Floor + 1);
    assert Published(s) == s.log == Published(s');
    if s.last.Floor < Ulid.STAMP_LIMIT {
      JoinKeeps(s, cursor, p);
      OneMoreSub(s.log, s.log, high, s.subs, NewSubscriber(s, cursor, p));
      assert AllSubs(s'.log, Published(s'), high, s'.subs);
    }
  }

  lemma TakeKeeps(s: State, i: nat)
    requires Inv(s) && i < |s.subs|
    ensures Inv(Next(s, Take(i)))
  {
    var s' := Next(s, Take(i));
    assert Published(s') == Published(s);
    if s.last.Floor < Ulid.STAMP_LIMIT { PullKeeps(Published(s), s.subs[i]); }
  }

  /** One step of any kind keeps the invariant. */
  lemma StepKeeps(s: State, step: Step)
    requires Inv(s) && ValidStep(step)
    ensures Inv(Next(s, step))
  {
    match step {
      case BeginAppend(inputs, ticks) =>
        if |s.unpublished| == 0 && |inputs| == |ticks| { AppendKeeps(s, inputs, ticks); }
      case Publish =>
        if |s.unpublished| > 0 { PublishKeeps(s); }
      case Subscribe(cursor, p) =>
        if |s.unpublished| == 0 { SubscribeKeeps(s, cursor, p); }
      case Take(i) =>
        if i < |s.subs| { TakeKeeps(s, i); }
    }
  }

  lemma {:induction false} RunKeeps(s: State, steps: seq<Step>)
    requires Inv(s) && ValidSteps(steps)
    ensures Inv(Run(s, steps))
  {
    if |steps| > 0 {
      RunKeeps(s, steps[..|steps| - 1]);
      StepKeeps(Run(s, steps[..|steps| - 1]), steps[|steps| - 1]);
    }
  }

  // ----- the delivery theorems ----------------------------------------------------

  lemma InitInv()
    ensures Inv(INIT)
  {
  }

  /** What a batch in flight will still add for this subscriber. */
  function InFlight(s: State, sub: Subscriber): seq<Event> {
    Select(s.unpublished, Live(sub))
  }

  lemma InFlightIsWanted(s: State, sub: Subscriber)
    requires Inv(s) && s.last.Floor < Ulid.STAMP_LIMIT && Covered(sub)
    requires SubInv(s.log, Published(s), sub)
    ensures Select(s.log, WantsOf(sub)) == Select(Published(s), WantsOf(sub)) + InFlight(s, sub)
  {
    var n := |s.log| - |s.unpublished|;
    forall e | e in s.unpublished ensures Live(sub)(e) == WantsOf(sub)(e) {
      var j :| 0 <= j < |s.unpublished| && s.unpublished[j] == e;
    }
    SelectAgree(s.unpublished, Live(sub), WantsOf(sub));
    assert s.log == Published(s) + s.unpublished;
    SelectConcat(Published(s), s.unpublished, WantsOf(sub));
  }

  /** The invariant read for one subscriber. */
  lemma SubscriberOwed(s: State, i: nat)
    requires Inv(s) && s.last.Floor < Ulid.STAMP_LIMIT && i < |s.subs| && Covered(s.subs[i])
    ensures var sub := s.subs[i];
            && |Held(sub) + InFlight(s, sub)| + sub.lost == |Select(s.log, WantsOf(sub))|
            && (sub.lost == 0 ==> Held(sub) + InFlight(s, sub) == Select(s.log, WantsOf(sub)))
            && (sub.lost == 0 ==> sub.got <= Select(s.log, WantsOf(sub)))
  {
    var sub := s.subs[i];
    assert SubInv(s.log, Published(s), sub);
    InFlightIsWanted(s, sub);
  }

  /** The handed-out events are what was asked for, in order and complete, exactly up to the gap. */
  lemma HandedUpToGap(s: State, i: nat, n: nat)
    requires Inv(s) && s.last.Floor < Ulid.STAMP_LIMIT && i < |s.subs| && Covered(s.subs[i]) && n <= |s.subs[i].got|
    ensures s.subs[i].got[..n] <= Select(s.log, WantsOf(s.subs[i])) <==> !PastGap(s.subs[i], n)
  {
    var sub := s.subs[i];
    assert SubInv(s.log, Published(s), sub);
    var asked, taken, more := Select(Published(s), WantsOf(sub)), Taken(sub), InFlight(s, sub);
    InFlightIsWanted(s, sub);
    SubscriberOwed(s, i);
    assert sub.got[..n] == taken[..n];
    if sub.gap.Some? {
      GapGrows(Published(s), sub, more);
      if n > sub.gap.value { assert taken[..n][..sub.gap.value + 1] == taken[..sub.gap.value + 1]; }
      else { assert taken[..sub.gap.value][..n] == taken[..n]; }
    }
  }

  // ----- which steps lose events --------------------------------------------------

  /** No step of the run is bad in the state it is taken in. */
  ghost predicate Never(bad: (State, Step) -> bool, s: State, steps: seq<Step>)
    requires s.last >= 0.0
  {
    |steps| == 0 ||
      (Never(bad, s, steps[..|steps| - 1]) && !bad(Run(s, steps[..|steps| - 1]), steps[|steps| - 1]))
  }

  /** A publication that pushes a wanted event out of subscriber `i`'s window. */
  predicate Drops(s: State, step: Step, i: nat) {
    && step.Publish? && |s.unpublished| > 0 && i < |s.subs|
    && |s.subs[i].queue| >= WINDOW && Live(s.subs[i])(s.subs[i].queue[0])
  }

  function Dropping(i: nat): (State, Step) -> bool {
    (s: State, step: Step) => Drops(s, step, i)
  }

  /** Nothing of subscriber `i`, if there is one, has been lost. */
  predicate NothingLost(s: State, i: nat) {
    i < |s.subs| ==> s.subs[i].lost == 0
  }

  lemma StepDrops(s: State, step: Step, i: nat)
    requires s.last >= 0.0
    ensures NothingLost(Next(s, step), i) <==> NothingLost(s, i) && !Drops(s, step, i)
  {
  }

  /** Only such a publication loses anything, and it always does. */
  lemma {:induction false} LosesExactly(s: State, steps: seq<Step>, i: nat)
    requires s.last >= 0.0 && NothingLost(s, i)
    ensures NothingLost(Run(s, steps), i) <==> Never(Dropping(i), s, steps)
  {
    if |steps| > 0 {
      var n := |steps| - 1;
      LosesExactly(s, steps[..n], i);
      StepDrops(Run(s, steps[..n]), steps[n], i);
    }
  }

  /** Subscriber `i` takes an event from a window that has lost one before. */
  predicate TakesPastGap(s: State, step: Step, i: nat) {
    && step == Take(i) && i < |s.subs|
    && var sub := s.subs[i];
       |sub.replay| == 0 && |sub.queue| > 0 && Live(sub)(sub.queue[0]) && sub.lost > 0
  }

  function TakingPastGap(i: nat): (State, Step) -> bool {
    (s: State, step: Step) => TakesPastGap(s, step, i)
  }

  /** Subscriber `i`, if there is one, has been handed nothing past a gap. */
  predicate NoGapYet(s: State, i: nat) {
    i < |s.subs| ==> !PastGap(s.subs[i], |s.subs[i].got|)
  }

  lemma StepTakesPastGap(s: State, step: Step, i: nat)
    requires Inv(s) && s.last.Floor < Ulid.STAMP_LIMIT
    ensures NoGapYet(Next(s, step), i) <==> NoGapYet(s, i) && !TakesPastGap(s, step, i)
  {
    if i < |s.subs| {
      var sub := s.subs[i];
      assert SubShape(Published(s), sub);
      if step == Take(i) { PullTakes(sub); }
    }
  }

  lemma {:induction false} GapExactly(s: State, steps: seq<Step>, i: nat)
    requires Inv(s) && ValidSteps(steps) && NoGapYet(s, i) && Run(s, steps).last.Floor < Ulid.STAMP_LIMIT
    ensures NoGapYet(Run(s, steps), i) <==> Never(TakingPastGap(i), s, steps)
  {
    if |steps| > 0 {
      var n := |steps| - 1;
      RunKeeps(s, steps[..n]);
      GapExactly(s, steps[..n], i);
      StepTakesPastGap(Run(s, steps[..n]), steps[n], i);
    }
  }

  /**
   * Snapshot-then-live.  After any interleaving of appends, publications, subscriptions and
   * takes, what a subscriber whose cursor names nothing the store had yet to mint has received
   * and what waits for it are the filtered log after its cursor, in order and once each, exactly
   * when no publication pushed a wanted event out of its full window; and what it has received is
   * the beginning of that log exactly when it took nothing from its window after such a loss.
   */
  lemma SnapshotThenLive(steps: seq<Step>, i: nat)
    requires ValidSteps(steps)
    requires var s := Run(INIT, steps);
             s.last.Floor < Ulid.STAMP_LIMIT && i < |s.subs| && Covered(s.subs[i])
    ensures var s := Run(INIT, steps);
            var sub := s.subs[i];
            && (Held(sub) + InFlight(s, sub) == Select(s.log, WantsOf(sub)) <==> Never(Dropping(i), INIT, steps))
            && (sub.got <= Select(s.log, WantsOf(sub)) <==> Never(TakingPastGap(i), INIT, steps))
  {
    var s := Run(INIT, steps);
    InitInv();
    RunKeeps(INIT, steps);
    SubscriberOwed(s, i);
    LosesExactly(INIT, steps, i);
    HandedUpToGap(s, i, |s.subs[i].got|);
    assert s.subs[i].got[..|s.subs[i].got|] == s.subs[i].got;
    GapExactly(INIT, steps, i);
  }

  /** What a subscriber under a filter is owed, from the fields of the log's events, when nothing was pushed out. */
  lemma FilteredDelivery(steps: seq<Step>, i: nat, glob: Glob, f: Filter, e: Event)
    requires ValidSteps(steps) && Never(Dropping(i), INIT, steps)
    requires var s := Run(INIT, steps);
             && s.last.Floor < Ulid.STAMP_LIMIT && i < |s.subs| && Covered(s.subs[i])
             && s.subs[i].p == MatchFilter(glob, Some(f))
    ensures var s := Run(INIT, steps);
            var sub := s.subs[i];
            (e in Held(sub) + InFlight(s, sub) <==>
               && e in s.log && FieldsMatch(glob, f, e)
               && (sub.cursor.Earliest? || (sub.cursor.At? && sub.cursor.id < e.id)
                   || (sub.cursor.Latest? && (sub.snapshotMax.None? || sub.snapshotMax.value < e.id))))
  {
    var s := Run(INIT, steps);
    SnapshotThenLive(steps, i);
    SelectMember(s.log, WantsOf(s.subs[i]), e);
    FilterMeans(glob, f, e);
  }

  // ----- taking -------------------------------------------------------------------

  /** `n` takes of one subscriber in a row. */
  function Takes(i: nat, n: nat): seq<Step> {
    seq(n, _ => Take(i))
  }

  /** What a subscriber has yet to take. */
  function Waiting(sub: Subscriber): nat {
    |sub.replay| + |sub.queue|
  }

  /** Nothing but subscriber `i` has changed. */
  ghost predicate OnlySub(s: State, t: State, i: nat) {
    && t == s.(subs := t.subs) && i < |s.subs| == |t.subs|
    && forall k :: 0 <= k < |s.subs| && k != i ==> t.subs[k] == s.subs[k]
  }

  /** A take hands out the head of the replay, else the head of the window if the live filter lets it through. */
  lemma TakeMoves(s: State, i: nat)
    requires s.last >= 0.0 && i < |s.subs|
    ensures OnlySub(s, Next(s, Take(i)), i)
    ensures var before, after := s.subs[i], Next(s, Take(i)).subs[i];
            && (|before.replay| > 0 ==>
                  after == before.(replay := before.replay[1..], got := before.got + [before.replay[0]]))
            && (|before.replay| == 0 && |before.queue| > 0 ==>
                  after == before.(queue := before.queue[1..],
                                   got := before.got + Select([before.queue[0]], Live(before))))
            && (Waiting(before) == 0 ==> after == before)
  {
  }

  /** Every take is one event fewer to wait for, and none gets lost on the way. */
  lemma {:induction false} TakesEmpty(s: State, i: nat, n: nat)
    requires s.last >= 0.0 && i < |s.subs|
    ensures OnlySub(s, Run(s, Takes(i, n)), i)
    ensures var sub, after := s.subs[i], Run(s, Takes(i, n)).subs[i];
            Held(after) == Held(sub) && Waiting(after) == if n <= Waiting(sub) then Waiting(sub) - n else 0
  {
    if n > 0 {
      TakesEmpty(s, i, n - 1);
      TakesMore(s, i, n);
      var t := Run(s, Takes(i, n - 1));
      OneTake(t, i);
      OnlyStill(s, t, Next(t, Take(i)), i);
    } else {
      assert Run(s, Takes(i, 0)) == s;
    }
  }

  lemma OneTake(s: State, i: nat)
    requires s.last >= 0.0 && i < |s.subs|
    ensures OnlySub(s, Next(s, Take(i)), i)
    ensures var sub, after := s.subs[i], Next(s, Take(i)).subs[i];
            Held(after) == Held(sub) && Waiting(after) == if Waiting(sub) > 0 then Waiting(sub) - 1 else 0
  {
    TakeMoves(s, i);
    PullHolds(s.subs[i]);
  }

  lemma OnlyStill(s: State, t: State, u: State, i: nat)
    requires OnlySub(s, t, i) && OnlySub(t, u, i)
    ensures OnlySub(s, u, i)
  {
  }

  lemma TakesMore(s: State, i: nat, n: nat)
    requires s.last >= 0.0 && n > 0
    ensures Run(s, Takes(i, n)) == Next(Run(s, Takes(i, n - 1)), Take(i))
  {
    assert Takes(i, n)[..n - 1] == Takes(i, n - 1);
  }

  /** As many takes as events wait hand all of them out, in order, and leave nothing waiting. */
  lemma TakesHandOutAll(s: State, i: nat, n: nat)
    requires s.last >= 0.0 && i < |s.subs| && n >= Waiting(s.subs[i])
    ensures var t := Run(s, Takes(i, n));
            && OnlySub(s, t, i) && t.subs[i].got == Held(s.subs[i])
            && t.subs[i].replay == [] && t.subs[i].queue == []
  {
    TakesEmpty(s, i, n);
  }

  /** However slow the subscriber and whatever its cursor: in order, no repeats, nothing unasked for. */
  lemma SlowSubscriber(steps: seq<Step>, i: nat)
    requires ValidSteps(steps)
    requires Run(INIT, steps).last.Floor < Ulid.STAMP_LIMIT && i < |Run(INIT, steps).subs|
    ensures var s := Run(INIT, steps);
            var sub := s.subs[i];
            && Ordered(sub.got)
            && (forall e :: e in sub.got ==> e in s.log && sub.p(e))
            && (Covered(sub) ==> forall e :: e in sub.got ==> WantsOf(sub)(e))
  {
    InitInv();
    RunKeeps(INIT, steps);
    var s := Run(INIT, steps);
    var sub := s.subs[i];
    assert SubInv(s.log, Published(s), sub);
    assert sub.got == Held(sub)[..|sub.got|];
    forall e | e in sub.got ensures e in Held(sub) && e in s.log { }
  }

  predicate Whole(sub: Subscriber) {
    sub.lost == 0 && sub.gap.None?
  }

  /** Only a publication that finds a window full loses anything. */
  lemma RoomLosesNothing(s: State, step: Step, i: nat)
    requires s.last >= 0.0 && i < |s.subs| && Whole(s.subs[i])
    requires step.Publish? ==> |s.subs[i].queue| < WINDOW
    ensures i < |Next(s, step).subs| && Whole(Next(s, step).subs[i])
  {
  }

  /** No publication finds this subscriber's window full. */
  ghost predicate KeepsUp(steps: seq<Step>, i: nat) {
    forall k :: 0 <= k < |steps| && steps[k].Publish? && i < |Run(INIT, steps[..k]).subs| ==>
                  |Run(INIT, steps[..k]).subs[i].queue| < WINDOW
  }

  lemma {:induction false} KeepingUpLosesNothing(steps: seq<Step>, i: nat)
    requires KeepsUp(steps, i) && i < |Run(INIT, steps).subs|
    ensures Whole(Run(INIT, steps).subs[i])
  {
    if |steps| > 0 {
      var n := |steps| - 1;
      var before, s := steps[..n], Run(INIT, steps[..n]);
      assert Run(INIT, steps) == Next(s, steps[n]);
      if i < |s.subs| {
        forall k | 0 <= k < n ensures before[..k] == steps[..k] && before[k] == steps[k] { }
        KeepingUpLosesNothing(before, i);
        RoomLosesNothing(s, steps[n], i);
      } else {
      }
    }
  }

  /** Everything is accepted. */
  function Anything(): Event -> bool {
    (e: Event) => true
  }

  lemma MintOne(last: real, input: EventInput, tick: Tick)
    requires last >= 0.0
    ensures var l := Ulid.NextStamp(last, tick.draw.now);
            Mint(last, [input], [tick]) == ([Envelope(input, IdNumber(l.Floor, tick.draw.rand), tick.timestamp)], l)
  {
    var r := Mint(last, [input], [tick]);
    assert [input][..0] == [] && [tick][..0] == [];
    assert Mint(last, [input][..0], [tick][..0]) == ([], last);
    assert r.1 == Ulid.NextStamp(last, tick.draw.now);
    assert r.0 == [Envelope(input, IdNumber(r.1.Floor, tick.draw.rand), tick.timestamp)];
  }

  /** The one event such an append stores. */
  function OneEvent(s: State, input: EventInput, tick: Tick): Event
    requires s.last >= 0.0
  {
    Envelope(input, IdNumber(Ulid.NextStamp(s.last, tick.draw.now).Floor, tick.draw.rand), tick.timestamp)
  }

  lemma RunMore(s: State, steps: seq<Step>, step: Step)
    requires s.last >= 0.0
    ensures Run(s, steps + [step]) == Next(Run(s, steps), step)
  {
    assert (steps + [step])[..|steps|] == steps;
  }

  /** One event is appended and published. */
  lemma OnePublished(s: State, input: EventInput, tick: Tick)
    requires s.last >= 0.0 && |s.unpublished| == 0
    ensures var e := OneEvent(s, input, tick);
            Next(Next(s, BeginAppend([input], [tick])), Publish) ==
              s.(log := s.log + [e], last := Ulid.NextStamp(s.last, tick.draw.now), unpublished := [],
                 subs := OfferAll(s.subs, e))
  {
    MintOne(s.last, input, tick);
    assert [OneEvent(s, input, tick)][1..] == [];
  }

  lemma ThreeSteps(s: State, a: Step, b: Step, c: Step)
    requires s.last >= 0.0
    ensures Run(s, [a, b, c]) == Next(Next(Next(s, a), b), c)
  {
    assert [] + [a] == [a] && [a] + [b] == [a, b] && [a, b] + [c] == [a, b, c];
    RunMore(s, [], a);
    RunMore(s, [a], b);
    RunMore(s, [a, b], c);
  }

  // ----- a run that overflows ------------------------------------------------------

  /** `n` publications in a row. */
  function Publications(n: nat): seq<Step> {
    seq(n, _ => Publish)
  }

  /** As many as are waiting empty the batch, and the log and the number of subscribers stay. */
  lemma {:induction false} PublicationsEmpty(s: State, n: nat)
    requires s.last >= 0.0 && n <= |s.unpublished|
    ensures var t := Run(s, Publications(n));
            && t == s.(unpublished := s.unpublished[n..], subs := t.subs) && |t.subs| == |s.subs|
  {
    if n > 0 {
      PublicationsEmpty(s, n - 1);
      assert Publications(n)[..n - 1] == Publications(n - 1);
      assert s.unpublished[n - 1..][1..] == s.unpublished[n..];
    } else {
      assert s.unpublished[0..] == s.unpublished;
    }
  }

  /** An idle subscriber with an empty window after `n` of the events of `es`, all wanted, were published. */
  function Backlogged(sub: Subscriber, es: seq<Event>, n: nat): Subscriber
    requires n <= |es|
  {
    if n <= WINDOW then sub.(queue := es[..n])
    else sub.(queue := es[n - WINDOW..n], lost := sub.lost + (n - WINDOW),
              gap := if sub.gap.Some? then sub.gap else Some(|Taken(sub)|))
  }

  lemma OfferBacklogged(sub: Subscriber, es: seq<Event>, n: nat)
    requires n < |es| && sub.queue == [] && forall e :: e in es ==> Live(sub)(e)
    ensures Offer(Backlogged(sub, es, n), es[n]) == Backlogged(sub, es, n + 1)
  {
    var now := Backlogged(sub, es, n);
    assert Live(now) == Live(sub);
    assert es[..n] + [es[n]] == es[..n + 1];
    if n >= WINDOW {
      assert now.queue[0] == es[n - WINDOW];
      assert now.queue[1..] + [es[n]] == es[n + 1 - WINDOW..n + 1];
    }
  }

  /** The publication after `n` others. */
  lemma PublishNext(s: State, t: State, i: nat, n: nat)
    requires n < |s.unpublished| && i < |s.subs| && s.subs[i].queue == []
    requires forall e :: e in s.unpublished ==> Live(s.subs[i])(e)
    requires t == s.(unpublished := s.unpublished[n..], subs := t.subs)
    requires |t.subs| == |s.subs| && t.subs[i] == Backlogged(s.subs[i], s.unpublished, n)
    ensures var r := PublishOne(t);
            && r == s.(unpublished := s.unpublished[n + 1..], subs := r.subs)
            && |r.subs| == |s.subs| && r.subs[i] == Backlogged(s.subs[i], s.unpublished, n + 1)
  {
    assert t.unpublished[0] == s.unpublished[n] && t.unpublished[1..] == s.unpublished[n + 1..];
    OfferBacklogged(s.subs[i], s.unpublished, n);
  }

  lemma {:induction false} PublishMany(s: State, i: nat, n: nat)
    requires s.last >= 0.0 && n <= |s.unpublished| && i < |s.subs| && s.subs[i].queue == []
    requires forall e :: e in s.unpublished ==> Live(s.subs[i])(e)
    ensures var t := Run(s, Publications(n));
            && t == s.(unpublished := s.unpublished[n..], subs := t.subs)
            && |t.subs| == |s.subs| && t.subs[i] == Backlogged(s.subs[i], s.unpublished, n)
  {
    if n > 0 {
      PublishMany(s, i, n - 1);
      assert Publications(n)[..n - 1] == Publications(n - 1);
      PublishNext(s, Run(s, Publications(n - 1)), i, n - 1);
    }
  }

  /** Minted events lie past every snapshot. */
  lemma MintedIsLive(s: State, inputs: seq<EventInput>, ticks: seq<Tick>, cursor: Cursor, e: Event)
    requires Inv(s) && ValidTicks(ticks) && |inputs| == |ticks|
    requires Mint(s.last, inputs, ticks).1.Floor < Ulid.STAMP_LIMIT && e in Mint(s.last, inputs, ticks).0
    ensures Live(NewSubscriber(s, cursor, Anything()))(e)
  {
    MintAscends(s.last, inputs, ticks);
  }

  /**
   * From every store, a new subscriber that stays idle while one batch is published loses exactly
   * what the batch has over the window: of 1025 events, one.
   */
  lemma IdleLoses(s: State, cursor: Cursor, inputs: seq<EventInput>, ticks: seq<Tick>)
    requires Inv(s) && |s.unpublished| == 0 && ValidTicks(ticks) && |inputs| == |ticks|
    requires Mint(s.last, inputs, ticks).1.Floor < Ulid.STAMP_LIMIT
    ensures var (es, last) := Mint(s.last, inputs, ticks);
            var sub := NewSubscriber(s, cursor, Anything());
            var t := Run(Next(Join(s, cursor, Anything()), BeginAppend(inputs, ticks)), Publications(|inputs|));
            && t.log == s.log + es && t.last == last && t.unpublished == []
            && |t.subs| == |s.subs| + 1 && t.subs[|s.subs|] == Backlogged(sub, es, |es|)
            && t.subs[|s.subs|].lost == if |inputs| <= WINDOW then 0 else |inputs| - WINDOW
  {
    var joined := Join(s, cursor, Anything());
    var begun := Next(joined, BeginAppend(inputs, ticks));
    forall e | e in begun.unpublished ensures Live(begun.subs[|s.subs|])(e) {
      MintedIsLive(s, inputs, ticks, cursor, e);
    }
    PublishMany(begun, |s.subs|, |inputs|);
  }

  /** A batch one larger than the window is to be minted, and nothing before it is left to read. */
  ghost predicate Overflowing(s: State, cursor: Cursor, inputs: seq<EventInput>, ticks: seq<Tick>) {
    && Inv(s) && |s.unpublished| == 0 && Below(cursor, s)
    && Rest(s.log, cursor, Anything()) == []
    && |inputs| == |ticks| == WINDOW + 1 && ValidTicks(ticks)
    && Mint(s.last, inputs, ticks).1.Floor < Ulid.STAMP_LIMIT
  }

  lemma MintedIsAsked(s: State, cursor: Cursor, inputs: seq<EventInput>, ticks: seq<Tick>)
    requires Overflowing(s, cursor, inputs, ticks)
    ensures var es := Mint(s.last, inputs, ticks).0;
            Rest(s.log + es, cursor, Anything()) == es
    ensures NewSubscriber(s, cursor, Anything()).replay == []
  {
    var es, p := Mint(s.last, inputs, ticks).0, Anything();
    MintAscends(s.last, inputs, ticks);
    SelectConcat(s.log, es, Wants(cursor, p));
    SelectAll(es, Wants(cursor, p));
    if cursor.Earliest? { SelectAgree(s.log, p, Wants(cursor, p)); }
  }

  lemma FirstIsAsked(s: State, cursor: Cursor, inputs: seq<EventInput>, ticks: seq<Tick>)
    requires Overflowing(s, cursor, inputs, ticks)
    ensures var es := Mint(s.last, inputs, ticks).0;
            es[0] in s.log + es && AfterCursor(cursor, es[0])
  {
    var es := Mint(s.last, inputs, ticks).0;
    MintedIsAsked(s, cursor, inputs, ticks);
    SelectMember(s.log + es, Wants(cursor, Anything()), es[0]);
  }

  /** What its window hands out next is the second event. */
  lemma SecondIsNext(s: State, cursor: Cursor, inputs: seq<EventInput>, ticks: seq<Tick>)
    requires Overflowing(s, cursor, inputs, ticks)
    ensures var es := Mint(s.last, inputs, ticks).0;
            var sub := Backlogged(NewSubscriber(s, cursor, Anything()), es, |es|);
            && es[0].id < es[1].id && sub.replay == [] && sub.got == []
            && |sub.queue| > 0 && sub.queue[0] == es[1] && Live(sub)(es[1])
  {
    MintedIsAsked(s, cursor, inputs, ticks);
    MintAscends(s.last, inputs, ticks);
    MintedIsLive(s, inputs, ticks, cursor, Mint(s.last, inputs, ticks).0[1]);
  }

  // ----- a cursor ahead of the store -----------------------------------------------

  lemma {:induction false} ZeroBytes(bytes: seq<Byte>)
    requires forall i :: 0 <= i < |bytes| ==> bytes[i] == 0
    ensures Ulid.BytesNumber(bytes) == 0
  {
    if |bytes| > 0 { ZeroBytes(bytes[..|bytes| - 1]); }
  }

  /** The smallest id the store can mint next: the clock stands still and the random bytes are zero. */
  lemma SmallestMint(last: real) returns (tick: Tick)
    requires last >= 0.0 && last.Floor + 1 < Ulid.STAMP_LIMIT
    ensures |tick.draw.rand| == 10 && Ulid.NextStamp(last, tick.draw.now).Floor == last.Floor + 1
    ensures IdNumber(last.Floor + 1, tick.draw.rand) == IdFloor(last.Floor + 1)
  {
    var zeros: seq<Byte> := seq(10, _ => 0);
    tick := Tick(Ulid.Draw(0.0, zeros), 0);
    ZeroBytes(zeros);
  }

  /** A cursor the store has yet to reach leaves nothing to replay, so the new event comes first. */
  lemma NothingToReplay(s: State, c: nat, e: Event)
    requires Inv(s) && s.last.Floor < Ulid.STAMP_LIMIT
    requires c >= IdFloor(s.last.Floor + 1) && e.id >= IdFloor(s.last.Floor + 1)
    ensures Pull(Offer(NewSubscriber(s, At(c), Anything()), e)).got == [e]
  {
    SelectNone(s.log, Wants(At(c), Anything()));
  }

  /** The cursor is an id the store could already have handed out, or "earliest". */
  ghost predicate Below(c: Cursor, s: State)
    requires s.last >= 0.0
  {
    !c.Latest? && (c.At? ==> c.id < IdFloor(s.last.Floor + 1))
  }

  // ----- what a step leaves alone --------------------------------------------------

  /** What any step but its own take leaves a subscription with. */
  ghost predicate SameSub(before: Subscriber, after: Subscriber) {
    && after.got == before.got && after.cursor == before.cursor && after.p == before.p
    && after.floor == before.floor && after.snapshotMax == before.snapshotMax && after.lost >= before.lost
    && (after.gap == before.gap || (before.gap.None? && after.gap == Some(|Taken(before)|)))
  }

  /** Only events younger than anything minted before have been added. */
  ghost predicate Extends(s: State, s': State)
    requires s.last >= 0.0
  {
    && s.last <= s'.last && s.log <= s'.log
    && (s'.last.Floor < Ulid.STAMP_LIMIT ==>
          forall i :: |s.log| <= i < |s'.log| ==> s'.log[i].id >= IdFloor(s.last.Floor + 1))
  }

  lemma StepLeaves(s: State, step: Step)
    requires Inv(s) && ValidStep(step)
    ensures var s' := Next(s, step);
            && Inv(s') && Extends(s, s') && |s.subs| <= |s'.subs|
            && (forall k :: 0 <= k < |s.subs| && step != Take(k) ==> SameSub(s.subs[k], s'.subs[k]))
  {
    StepKeeps(s, step);
    if step.BeginAppend? && |s.unpublished| == 0 && |step.inputs| == |step.ticks| {
      if Next(s, step).last.Floor < Ulid.STAMP_LIMIT { MintAscends(s.last, step.inputs, step.ticks); }
    }
  }

  lemma BelowStays(c: Cursor, s: State, s': State)
    requires 0.0 <= s.last <= s'.last && Below(c, s)
    ensures Below(c, s')
  {
    IdFloorMonotone(s.last.Floor + 1, s'.last.Floor + 1);
  }

  /** What a subscriber that joins at `c` has been handed after a run. */
  function HandedAfter(s: State, c: nat, p: Event -> bool, steps: seq<Step>): seq<Event>
    requires s.last >= 0.0
  {
    var t := Run(Join(s, At(c), p), steps);
    if |s.subs| < |t.subs| then t.subs[|s.subs|].got else []
  }

  /** Whatever is filtered and whatever happens, nothing at or before `c` is handed out. */
  ghost predicate Honoured(s: State, c: nat)
    requires s.last >= 0.0
  {
    forall p, steps, e |
      && ValidSteps(steps) && Run(Join(s, At(c), p), steps).last.Floor < Ulid.STAMP_LIMIT
      && e in HandedAfter(s, c, p, steps) ::
      e.id > c
  }

  /** What a subscription asks for never changes. */
  lemma {:induction false} RunKeepsTerms(s: State, steps: seq<Step>, k: nat)
    requires Inv(s) && ValidSteps(steps) && k < |s.subs|
    ensures k < |Run(s, steps).subs|
    ensures var before, after := s.subs[k], Run(s, steps).subs[k];
            after.cursor == before.cursor && after.p == before.p && after.floor == before.floor
  {
    if |steps| > 0 {
      var init, t := steps[..|steps| - 1], Run(s, steps[..|steps| - 1]);
      RunKeepsTerms(s, init, k);
      RunKeeps(s, init);
      StepLeaves(t, steps[|steps| - 1]);
      if steps[|steps| - 1] == Take(k) { var _ := PullHands(t.subs[k]); }
    }
  }

  lemma PastIsHonoured(s: State, c: nat, p: Event -> bool, steps: seq<Step>, e: Event)
    requires Inv(s) && |s.unpublished| == 0 && c < IdFloor(s.last.Floor + 1) && ValidSteps(steps)
    requires Run(Join(s, At(c), p), steps).last.Floor < Ulid.STAMP_LIMIT && e in HandedAfter(s, c, p, steps)
    ensures e.id > c
  {
    var joined, k := Join(s, At(c), p), |s.subs|;
    var t := Run(joined, steps);
    SubscribeKeeps(s, At(c), p);
    RunKeeps(joined, steps);
    RunKeepsTerms(joined, steps, k);
    var sub := t.subs[k];
    assert SubInv(t.log, Published(t), sub);
    assert e in Held(sub) && WantsOf(sub)(e);
  }

  /** The next event that a new subscriber at `c` is handed, when nothing is there to replay. */
  lemma HandedNext(s: State, c: nat, input: EventInput, tick: Tick)
    requires s.last >= 0.0 && |s.unpublished| == 0
    ensures var steps := [BeginAppend([input], [tick]), Publish, Take(|s.subs|)];
            && HandedAfter(s, c, Anything(), steps) ==
                 Pull(Offer(NewSubscriber(s, At(c), Anything()), OneEvent(s, input, tick))).got
            && Run(Join(s, At(c), Anything()), steps).last == Ulid.NextStamp(s.last, tick.draw.now)
  {
    var joined := Join(s, At(c), Anything());
    OnePublished(joined, input, tick);
    ThreeSteps(joined, BeginAppend([input], [tick]), Publish, Take(|s.subs|));
  }

  lemma FutureIsHandedOut(s: State, c: nat) returns (steps: seq<Step>, e: Event)
    requires Inv(s) && |s.unpublished| == 0 && s.last.Floor + 1 < Ulid.STAMP_LIMIT && c >= IdFloor(s.last.Floor + 1)
    ensures ValidSteps(steps) && Run(Join(s, At(c), Anything()), steps).last.Floor < Ulid.STAMP_LIMIT
    ensures e in HandedAfter(s, c, Anything(), steps) && e.id <= c
  {
    var tick := SmallestMint(s.last);
    var input := EventInput("", None, None, None, "");
    e := OneEvent(s, input, tick);
    NothingToReplay(s, c, e);
    HandedNext(s, c, input, tick);
    steps := [BeginAppend([input], [tick]), Publish, Take(|s.subs|)];
  }

  /**
   * The live side never looks at the cursor, so a cursor ahead of the store is not honoured:
   * nothing at or before it is ever handed out, over all filters and runs, precisely when it is
   * below every id the store can still mint.
   */
  lemma FutureCursorIsNotHonoured(s: State, c: nat)
    requires Inv(s) && |s.unpublished| == 0 && s.last.Floor + 1 < Ulid.STAMP_LIMIT
    ensures c < IdFloor(s.last.Floor + 1) <==> Honoured(s, c)
  {
    if c < IdFloor(s.last.Floor + 1) {
      forall p, steps, e |
        && ValidSteps(steps) && Run(Join(s, At(c), p), steps).last.Floor < Ulid.STAMP_LIMIT
        && e in HandedAfter(s, c, p, steps)
        ensures e.id > c
      {
        PastIsHonoured(s, c, p, steps, e);
      }
    } else {
      var steps, e := FutureIsHandedOut(s, c);
    }
  }

  /** A "latest" subscription asks for what was appended after it joined. */
  lemma LatestWants(log: seq<Event>, later: seq<Event>, sub: Subscriber)
    requires Ordered(log + later) && sub.cursor.Latest? && sub.snapshotMax == SnapshotMax(log)
    ensures Select(log + later, WantsOf(sub)) == Select(later, sub.p)
  {
    var all, q := log + later, WantsOf(sub);
    forall e | e in log ensures !q(e) {
      var i :| 0 <= i < |log| && log[i] == e;
      assert all[i] == e && all[|log| - 1] == log[|log| - 1];
    }
    SelectNone(log, q);
    forall e | e in later ensures q(e) == sub.p(e) {
      var j :| 0 <= j < |later| && later[j] == e;
      assert all[|log| + j] == e;
      if |log| > 0 { assert all[|log| - 1] == log[|log| - 1]; }
    }
    SelectAgree(later, q, sub.p);
    SelectConcat(log, later, q);
  }

  /** Nothing of the log is owed to a subscription that joins it at "latest". */
  lemma LatestDrops(log: seq<Event>, later: seq<Event>, sub: Subscriber, e: Event)
    requires Ordered(log + later) && e in log && sub.cursor.Latest? && sub.snapshotMax == SnapshotMax(log)
    ensures e !in Select(log + later, WantsOf(sub))
  {
    LatestWants(log, later, sub);
    var i :| 0 <= i < |log| && log[i] == e;
    forall j | 0 <= j < |later| ensures later[j] != e {
      assert (log + later)[i] == e && (log + later)[|log| + j] == later[j];
    }
    SelectMember(later, sub.p, e);
  }

  /**
   * What a "latest" subscription misses: it is owed everything after the first `n` events exactly
   * when nothing matching was appended between them and its joining.
   */
  lemma LatestOwes(log: seq<Event>, later: seq<Event>, n: nat, sub: Subscriber)
    requires Ordered(log + later) && sub.cursor.Latest? && sub.snapshotMax == SnapshotMax(log) && n <= |log|
    ensures Select(log + later, WantsOf(sub)) == Select((log + later)[n..], sub.p) <==> Select(log[n..], sub.p) == []
  {
    LatestWants(log, later, sub);
    assert (log + later)[n..] == log[n..] + later;
    SelectConcat(log[n..], later, sub.p);
  }

  // ----- the store object ---------------------------------------------------------

  /** Publish whatever is left of the batch. */
  function PublishAll(s: State): (r: State)
    ensures r.unpublished == [] && r.log == s.log && r.last == s.last && |r.subs| == |s.subs|
    decreases |s.unpublished|
  {
    if |s.unpublished| == 0 then s else PublishAll(PublishOne(s))
  }

  /** A whole `append` call when nothing runs in between. */
  function AppendAll(s: State, inputs: seq<EventInput>, ticks: seq<Tick>): (r: State)
    requires s.last >= 0.0
    ensures r.last >= s.last
  {
    PublishAll(Next(s, BeginAppend(inputs, ticks)))
  }

  lemma {:induction false} PublishAllKeeps(s: State)
    requires Inv(s)
    ensures Inv(PublishAll(s))
    decreases |s.unpublished|
  {
    if |s.unpublished| > 0 {
      PublishKeeps(s);
      PublishAllKeeps(PublishOne(s));
    }
  }

  lemma AppendAllKeeps(s: State, inputs: seq<EventInput>, ticks: seq<Tick>)
    requires Inv(s) && ValidTicks(ticks)
    ensures Inv(AppendAll(s, inputs, ticks))
  {
    StepKeeps(s, BeginAppend(inputs, ticks));
    PublishAllKeeps(Next(s, BeginAppend(inputs, ticks)));
  }

  /** What a new subscription replays and lets through, from the fields of the events. */
  lemma SubscribedTo(log: seq<Event>, cursor: Cursor, glob: Glob, filter: Option<Filter>, e: Event)
    ensures var p := MatchFilter(glob, filter);
            && (e in Replay(log, cursor, p) <==>
                  e in log && (cursor.Earliest? || (cursor.At? && cursor.id < e.id)) && AskedFor(glob, filter, e))
            && (p(e) <==> AskedFor(glob, filter, e))
  {
    var p := MatchFilter(glob, filter);
    if filter.Some? { FilterMeans(glob, filter.value, e); }
    SelectMember(log, p, e);
    SelectMember(log, Wants(cursor, p), e);
  }

  class Store {
    var log: seq<Event>
    var subs: seq<Subscriber>
    const ulid: Ulid.Factory
    const glob: Glob

    ghost function View(): State reads this, ulid {
      State(log, ulid.last, [], subs)
    }

    ghost predicate Valid() reads this, ulid {
      ulid.Valid() && Inv(View())
    }

    constructor (glob: Glob)
      ensures Valid() && View() == INIT && fresh(ulid) && this.glob == glob
    {
      this.glob := glob;
      log, subs := [], [];
      ulid := new Ulid.Factory();
      new;
      InitInv();
      assert View() == INIT;
    }

    /** The first loop of `append`: one envelope per input. */
    method MintBatch(inputs: seq<EventInput>, ticks: seq<Tick>) returns (envelopes: seq<Event>)
      requires ulid.Valid() && |inputs| == |ticks| && ValidTicks(ticks)
      modifies ulid
      ensures ulid.Valid() && (envelopes, ulid.last) == Mint(old(ulid.last), inputs, ticks)
    {
      envelopes := [];
      for i := 0 to |inputs|
        invariant ulid.Valid() && (envelopes, ulid.last) == Mint(old(ulid.last), inputs[..i], ticks[..i])
      {
        assert inputs[..i + 1][..i] == inputs[..i] && ticks[..i + 1][..i] == ticks[..i];
        var id := ulid.Next(ticks[i].draw.now, ticks[i].draw.rand);
        Ulid.IdOrderOfText(ulid.last.Floor, ticks[i].draw.rand);
        var envelope := Envelope(inputs[i], Ulid.IdOrder(id), ticks[i].timestamp);
        assert envelope.id == IdNumber(ulid.last.Floor, ticks[i].draw.rand);
        envelopes := envelopes + [envelope];
      }
      assert inputs[..|inputs|] == inputs && ticks[..|ticks|] == ticks;
    }

    /** The second loop: hand every envelope to every subscription. */
    method PublishBatch(envelopes: seq<Event>)
      modifies this`subs
      ensures subs == PublishAll(old(View()).(unpublished := envelopes)).subs
    {
      ghost var before := View().(unpublished := envelopes);
      for i := 0 to |envelopes|
        invariant PublishAll(before.(unpublished := envelopes[i..], subs := subs)).subs == PublishAll(before).subs
      {
        ghost var half := before.(unpublished := envelopes[i..], subs := subs);
        assert PublishAll(half) == PublishAll(PublishOne(half));
        assert envelopes[i..][1..] == envelopes[i + 1..];
        subs := OfferAll(subs, envelopes[i]);
      }
    }

    method Append(inputs: seq<EventInput>, ticks: seq<Tick>) returns (envelopes: seq<Event>)
      requires Valid() && |inputs| == |ticks| && ValidTicks(ticks)
      modifies this, ulid
      ensures Valid() && View() == AppendAll(old(View()), inputs, ticks)
      ensures log == old(log) + envelopes && envelopes == Mint(old(ulid.last), inputs, ticks).0
    {
      AppendAllKeeps(View(), inputs, ticks);
      envelopes := MintBatch(inputs, ticks);
      log := log + envelopes;
      PublishBatch(envelopes);
    }

    /** Returns the index the new subscription is known by. */
    method Subscribe(cursor: Cursor, filter: Option<Filter>) returns (k: nat)
      requires Valid()
      modifies this
      ensures Valid() && View() == Join(old(View()), cursor, MatchFilter(glob, filter))
      ensures k == |old(subs)| && |subs| == k + 1 && subs[k].got == [] && subs[k].queue == []
      ensures forall e :: e in subs[k].replay <==>
                && e in log && AskedFor(glob, filter, e)
                && (cursor.Earliest? || (cursor.At? && cursor.id < e.id))
      ensures forall e :: Live(subs[k])(e) <==>
                AskedFor(glob, filter, e) && (|log| > 0 ==> log[|log| - 1].id < e.id)
    {
      var p := MatchFilter(glob, filter);
      ghost var joined := Join(View(), cursor, p);
      SubscribeKeeps(View(), cursor, p);
      k := |subs|;
      subs := subs + [Subscriber(cursor, p, SnapshotMax(log), Replay(log, cursor, p), [], |log|,
                                 IdFloor(ulid.last.Floor + 1), [], 0, None)];
      assert View() == joined;
      forall e { SubscribedTo(log, cursor, glob, filter, e); }
    }

    /** The consumer of subscription `k` pulls once. */
    method Take(k: nat) returns (handed: seq<Event>)
      requires Valid() && k < |subs|
      modifies this
      ensures Valid() && View() == Next(old(View()), Step.Take(k))
      ensures subs[k].got == old(subs[k]).got + handed
      ensures var before := old(subs)[k];
              && (|before.replay| > 0 ==> handed == [before.replay[0]])
              && (|before.replay| == 0 ==>
                    handed == if |before.queue| > 0 then Select([before.queue[0]], Live(before)) else [])
    {
      TakeKeeps(View(), k);
      var sub := subs[k];
      handed := [];
      if |sub.replay| > 0 {
        handed := [sub.replay[0]];
        sub := sub.(replay := sub.replay[1..], got := sub.got + handed);
      } else if |sub.queue| > 0 {
        if Live(sub)(sub.queue[0]) { handed := [sub.queue[0]]; }
        sub := sub.(queue := sub.queue[1..], got := sub.got + handed);
      }
      assert sub == Pull(subs[k]) by { assert subs[k].got + [] == subs[k].got; }
      subs := subs[k := sub];
    }
  }
}

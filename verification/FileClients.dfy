/**
 * The file store seen from its clients (packages/store-file/src/FileStore.ts): what `append` mints
 * can always be written, and what a subscriber is handed when foreign lines join the log.
 */
module FileClients {
  import opened Wrappers
  import opened Events
  import opened Recovery
  import opened FileStore
  import M = MemoryStore
  import Ulid

  // ----- what append hands over can be written ------------------------------------

  /** An input the schema accepts. */
  predicate Acceptable(input: EventInput) {
    && (input.actor.Some? ==> IsActor(input.actor.value))
    && (input.source.Some? ==> input.source.value in SOURCES)
    && (input.causedBy.Some? ==> forall i :: 0 <= i < |input.causedBy.value| ==> input.causedBy.value[i] < ID_LIMIT)
  }

  lemma EnvelopeIsEncodable(input: EventInput, stamp: nat, tick: M.Tick)
    requires Acceptable(input) && |tick.draw.rand| == 10
    ensures Encodable(M.Envelope(input, M.IdNumber(stamp, tick.draw.rand), tick.timestamp))
  {
    Ulid.TenBytes(tick.draw.rand);
    SampleIsEncodable();
    assert SOURCES[4] == "cli";
  }

  /** Every batch minted from acceptable inputs can be encoded. */
  lemma {:induction false} MintedIsEncodable(last: real, inputs: seq<EventInput>, ticks: seq<M.Tick>)
    requires last >= 0.0 && |inputs| == |ticks| && M.ValidTicks(ticks)
    requires forall i :: 0 <= i < |inputs| ==> Acceptable(inputs[i])
    ensures AllEncodable(M.Mint(last, inputs, ticks).0)
  {
    if |inputs| > 0 {
      var n := |inputs| - 1;
      MintedIsEncodable(last, inputs[..n], ticks[..n]);
      var before := M.Mint(last, inputs[..n], ticks[..n]);
      EnvelopeIsEncodable(inputs[n], Ulid.NextStamp(before.1, ticks[n].draw.now).Floor, ticks[n]);
    }
  }

  // ----- subscribers of a tailing store -------------------------------------------

  /**
   * The file store with its subscribers.  `mem` is the memory store's machine with the file
   * store's log in it; of its `last`, which mints nothing here, only the sign matters.
   */
  datatype Tail = Tail(file: State, mem: M.State)

  datatype Step =
    | Perform(act: Act)
    | Publish
    | Subscribe(cursor: Cursor, p: Event -> bool)
    | Take(i: nat)

  function Start(decode: Decoder, raw: seq<Byte>): Tail {
    Tail(Open(decode, raw), M.State(Open(decode, raw).store, 0.0, [], []))
  }

  /** Polls and appends take their events in under the lock, one batch at a time; others write at any time. */
  function Next(encode: Encoder, decode: Decoder, t: Tail, step: Step): (r: Tail)
    requires t.mem.last >= 0.0
    ensures r.mem.last >= 0.0
  {
    match step
    case Perform(act) =>
      if act.Foreign? then t.(file := FileStore.Perform(encode, decode, t.file, act))
      else if |t.mem.unpublished| > 0 then t
      else TakeIn(t, FileStore.Perform(encode, decode, t.file, act))
    case Publish => t.(mem := M.Next(t.mem, M.Publish))
    case Subscribe(cursor, p) => t.(mem := M.Next(t.mem, M.Subscribe(cursor, p)))
    case Take(i) => t.(mem := M.Next(t.mem, M.Take(i)))
  }

  /** What joined the log is to be published. */
  function TakeIn(t: Tail, file: State): Tail {
    var n := |t.file.store|;
    Tail(file, t.mem.(log := file.store, unpublished := if n <= |file.store| then file.store[n..] else []))
  }

  function Run(encode: Encoder, decode: Decoder, t: Tail, steps: seq<Step>): (r: Tail)
    requires t.mem.last >= 0.0
    ensures r.mem.last >= 0.0
  {
    if |steps| == 0 then t else
      Next(encode, decode, Run(encode, decode, t, steps[..|steps| - 1]), steps[|steps| - 1])
  }

  /** What a subscription made on `snapshot` is handed of `later` when none of it slides out. */
  function Handed(snapshot: seq<Event>, later: seq<Event>, cursor: Cursor, p: Event -> bool): seq<Event> {
    M.Replay(snapshot, cursor, p) + Select(later, LiveAfter(snapshot, p))
  }

  function LiveAfter(snapshot: seq<Event>, p: Event -> bool): Event -> bool {
    (e: Event) => p(e) && (M.SnapshotMax(snapshot).None? || e.id > M.SnapshotMax(snapshot).value)
  }

  /** What it asked for: of the later events, all that match and are not up to its cursor. */
  function Owed(snapshot: seq<Event>, later: seq<Event>, cursor: Cursor, p: Event -> bool): seq<Event> {
    M.Replay(snapshot, cursor, p) + Select(later, NotUpTo(cursor, p))
  }

  function NotUpTo(cursor: Cursor, p: Event -> bool): Event -> bool {
    (e: Event) => p(e) && (cursor.At? ==> e.id > cursor.id)
  }

  // ----- the invariant: nothing is said of the order of ids -----------------------

  /** What is held and what slid out add up to what the live filter lets through of `pub`. */
  ghost predicate Accounts(pub: seq<Event>, sub: M.Subscriber)
    requires sub.start <= |pub|
  {
    var handed := Handed(pub[..sub.start], pub[sub.start..], sub.cursor, sub.p);
    |M.Held(sub)| + sub.lost == |handed| && (sub.lost == 0 ==> M.Held(sub) == handed)
  }

  ghost predicate SubHolds(pub: seq<Event>, sub: M.Subscriber) {
    M.SubShape(pub, sub) && Accounts(pub, sub)
  }

  ghost predicate Inv(t: Tail) {
    && t.mem.last >= 0.0 && t.mem.log == t.file.store && |t.mem.unpublished| <= |t.mem.log|
    && t.mem.unpublished == t.mem.log[|t.mem.log| - |t.mem.unpublished|..]
    && forall i :: 0 <= i < |t.mem.subs| ==> SubHolds(M.Published(t.mem), t.mem.subs[i])
  }

  lemma LiveIs(pub: seq<Event>, sub: M.Subscriber)
    requires M.SubShape(pub, sub)
    ensures M.Live(sub) == LiveAfter(pub[..sub.start], sub.p)
  {
  }

  /** One more published event. */
  lemma HandedMore(pub: seq<Event>, sub: M.Subscriber, e: Event)
    requires M.SubShape(pub, sub)
    ensures Handed((pub + [e])[..sub.start], (pub + [e])[sub.start..], sub.cursor, sub.p) ==
            Handed(pub[..sub.start], pub[sub.start..], sub.cursor, sub.p) + Select([e], M.Live(sub))
  {
    LiveIs(pub, sub);
    assert (pub + [e])[..sub.start] == pub[..sub.start];
    assert (pub + [e])[sub.start..] == pub[sub.start..] + [e];
    SelectConcat(pub[sub.start..], [e], M.Live(sub));
    var replay := M.Replay(pub[..sub.start], sub.cursor, sub.p);
    Associates(replay, Select(pub[sub.start..], M.Live(sub)), Select([e], M.Live(sub)));
  }

  lemma RoomHolds(pub: seq<Event>, sub: M.Subscriber, e: Event)
    requires SubHolds(pub, sub) && |sub.queue| < M.WINDOW
    ensures SubHolds(pub + [e], sub.(queue := sub.queue + [e]))
  {
    M.RoomShape(pub, sub, e);
    HandedMore(pub, sub, e);
  }

  lemma SlideHolds(pub: seq<Event>, sub: M.Subscriber)
    requires SubHolds(pub, sub) && |sub.queue| > 0
    ensures SubHolds(pub, M.Slide(sub))
  {
    var a, head, b := M.SlideHolds(sub);
  }

  lemma OfferHolds(pub: seq<Event>, sub: M.Subscriber, e: Event)
    requires SubHolds(pub, sub)
    ensures SubHolds(pub + [e], M.Offer(sub, e))
  {
    if |sub.queue| < M.WINDOW {
      RoomHolds(pub, sub, e);
    } else {
      SlideHolds(pub, sub);
      RoomHolds(pub, M.Slide(sub), e);
    }
  }

  lemma PullHolds(pub: seq<Event>, sub: M.Subscriber)
    requires SubHolds(pub, sub)
    ensures SubHolds(pub, M.Pull(sub))
  {
    M.PullHolds(sub);
    M.PullShape(pub, sub);
  }

  lemma JoinHolds(s: M.State, cursor: Cursor, p: Event -> bool)
    requires s.last >= 0.0
    ensures SubHolds(s.log, M.NewSubscriber(s, cursor, p))
  {
    assert s.log[..|s.log|] == s.log && s.log[|s.log|..] == [];
  }

  lemma PublishHolds(t: Tail)
    requires Inv(t) && |t.mem.unpublished| > 0
    ensures Inv(t.(mem := M.PublishOne(t.mem)))
  {
    var s, s', n := t.mem, M.PublishOne(t.mem), |t.mem.log| - |t.mem.unpublished|;
    assert s.log[n] == s.unpublished[0] && s'.unpublished == s.log[n + 1..];
    assert M.Published(s') == M.Published(s) + [s.log[n]];
    forall i | 0 <= i < |s.subs| ensures SubHolds(M.Published(s'), s'.subs[i]) {
      OfferHolds(M.Published(s), s.subs[i], s.log[n]);
    }
  }

  lemma TakeInHolds(t: Tail, file: State)
    requires Inv(t) && |t.mem.unpublished| == 0 && t.file.store <= file.store
    ensures Inv(TakeIn(t, file))
  {
    var t', n := TakeIn(t, file), |t.file.store|;
    assert t'.mem.unpublished == file.store[n..] && |t'.mem.unpublished| == |file.store| - n;
    assert M.Published(t.mem) == t.file.store == file.store[..n] == M.Published(t'.mem);
  }

  lemma PerformGrows(encode: Encoder, decode: Decoder, s: State, act: Act)
    ensures s.store <= FileStore.Perform(encode, decode, s, act).store
  {
  }

  lemma SubscribeHolds(t: Tail, cursor: Cursor, p: Event -> bool)
    requires Inv(t) && |t.mem.unpublished| == 0
    ensures Inv(t.(mem := M.Join(t.mem, cursor, p)))
  {
    JoinHolds(t.mem, cursor, p);
    assert M.Published(t.mem) == t.mem.log == M.Published(M.Join(t.mem, cursor, p));
  }

  lemma TakeHolds(t: Tail, i: nat)
    requires Inv(t) && i < |t.mem.subs|
    ensures Inv(t.(mem := M.Next(t.mem, M.Take(i))))
  {
    PullHolds(M.Published(t.mem), t.mem.subs[i]);
    assert M.Published(M.Next(t.mem, M.Take(i))) == M.Published(t.mem);
  }

  lemma StepHolds(encode: Encoder, decode: Decoder, t: Tail, step: Step)
    requires Inv(t)
    ensures Inv(Next(encode, decode, t, step))
  {
    match step {
      case Perform(act) =>
        PerformGrows(encode, decode, t.file, act);
        if !act.Foreign? && |t.mem.unpublished| == 0 {
          TakeInHolds(t, FileStore.Perform(encode, decode, t.file, act));
        }
      case Publish => if |t.mem.unpublished| > 0 { PublishHolds(t); }
      case Subscribe(cursor, p) => if |t.mem.unpublished| == 0 { SubscribeHolds(t, cursor, p); }
      case Take(i) => if i < |t.mem.subs| { TakeHolds(t, i); }
    }
  }

  /** No step of the run is bad in the state it is taken in. */
  ghost predicate Never(bad: (Tail, Step) -> bool, encode: Encoder, decode: Decoder, t: Tail, steps: seq<Step>)
    requires t.mem.last >= 0.0
  {
    |steps| == 0 ||
      var init, step := steps[..|steps| - 1], steps[|steps| - 1];
      Never(bad, encode, decode, t, init) && !bad(Run(encode, decode, t, init), step)
  }

  /** A publication that pushes an event subscriber `i` would be handed out of its window. */
  function Dropping(i: nat): (Tail, Step) -> bool {
    (t: Tail, step: Step) => step.Publish? && M.Drops(t.mem, M.Publish, i)
  }

  lemma {:induction false} RunHolds(encode: Encoder, decode: Decoder, t: Tail, steps: seq<Step>, i: nat)
    requires Inv(t) && M.NothingLost(t.mem, i)
    ensures Inv(Run(encode, decode, t, steps))
    ensures M.NothingLost(Run(encode, decode, t, steps).mem, i) <==> Never(Dropping(i), encode, decode, t, steps)
  {
    if |steps| > 0 {
      var before, step := Run(encode, decode, t, steps[..|steps| - 1]), steps[|steps| - 1];
      RunHolds(encode, decode, t, steps[..|steps| - 1], i);
      StepHolds(encode, decode, before, step);
      match step {
        case Perform(_) =>
        case Publish => M.StepDrops(before.mem, M.Publish, i);
        case Subscribe(cursor, p) => M.StepDrops(before.mem, M.Subscribe(cursor, p), i);
        case Take(k) => M.StepDrops(before.mem, M.Take(k), i);
      }
    }
  }

  // ----- taking -------------------------------------------------------------------

  function Takes(i: nat, n: nat): seq<Step> {
    seq(n, _ => Take(i))
  }

  lemma {:induction false} TakesAre(encode: Encoder, decode: Decoder, t: Tail, i: nat, n: nat)
    requires t.mem.last >= 0.0
    ensures Run(encode, decode, t, Takes(i, n)) == t.(mem := M.Run(t.mem, M.Takes(i, n)))
  {
    if n > 0 {
      TakesAre(encode, decode, t, i, n - 1);
      assert Takes(i, n)[..n - 1] == Takes(i, n - 1) && M.Takes(i, n)[..n - 1] == M.Takes(i, n - 1);
    }
  }

  /** A file subscriber that takes as often as events wait is handed all of them. */
  lemma FileTakesHandOutAll(encode: Encoder, decode: Decoder, t: Tail, i: nat, n: nat)
    requires t.mem.last >= 0.0 && i < |t.mem.subs| && n >= M.Waiting(t.mem.subs[i])
    ensures var r := Run(encode, decode, t, Takes(i, n));
            && r.file == t.file && M.OnlySub(t.mem, r.mem, i) && r.mem.subs[i].got == M.Held(t.mem.subs[i])
            && r.mem.subs[i].replay == [] && r.mem.subs[i].queue == []
  {
    TakesAre(encode, decode, t, i, n);
    M.TakesHandOutAll(t.mem, i, n);
  }

  // ----- who misses what ----------------------------------------------------------

  lemma SelectSame(s: seq<Event>, p: Event -> bool, q: Event -> bool)
    ensures Select(s, p) == Select(s, q) <==> forall e :: e in s ==> p(e) == q(e)
  {
    if forall e :: e in s ==> p(e) == q(e) {
      SelectAgree(s, p, q);
    } else {
      var e :| e in s && p(e) != q(e);
      SelectMember(s, p, e);
      SelectMember(s, q, e);
    }
  }

  lemma {:induction false} SelectFewer(s: seq<Event>, p: Event -> bool, q: Event -> bool)
    requires forall e :: e in s && p(e) ==> q(e)
    ensures |Select(s, p)| <= |Select(s, q)|
  {
    if |s| > 0 { SelectFewer(s[..|s| - 1], p, q); }
  }

  /** The cursor is not past the last event of the snapshot. */
  predicate CursorInside(snapshot: seq<Event>, cursor: Cursor) {
    cursor.At? ==> |snapshot| > 0 && cursor.id <= snapshot[|snapshot| - 1].id
  }

  /** What the live filter makes of later events, for a cursor inside the snapshot. */
  lemma HandedExactly(snapshot: seq<Event>, later: seq<Event>, cursor: Cursor, p: Event -> bool)
    requires CursorInside(snapshot, cursor)
    ensures Handed(snapshot, later, cursor, p) == Owed(snapshot, later, cursor, p) <==>
              NoneLate(snapshot, later, cursor, p)
    ensures |Handed(snapshot, later, cursor, p)| <= |Owed(snapshot, later, cursor, p)|
  {
    SelectSame(later, LiveAfter(snapshot, p), NotUpTo(cursor, p));
    SelectFewer(later, LiveAfter(snapshot, p), NotUpTo(cursor, p));
    SameTail(M.Replay(snapshot, cursor, p), Select(later, LiveAfter(snapshot, p)), Select(later, NotUpTo(cursor, p)));
  }

  /** The log when the subscriber joined, and what has been taken in since. */
  function Snapshot(t: Tail, sub: M.Subscriber): seq<Event> {
    if sub.start <= |t.mem.log| then t.mem.log[..sub.start] else t.mem.log
  }

  function Later(t: Tail, sub: M.Subscriber): seq<Event> {
    t.mem.log[|Snapshot(t, sub)|..]
  }

  /** Handed out, waiting, or half published, against what the live filter lets through. */
  lemma WaitingIs(t: Tail, i: nat)
    requires Inv(t) && i < |t.mem.subs|
    ensures var sub := t.mem.subs[i];
            var handed := Handed(Snapshot(t, sub), Later(t, sub), sub.cursor, sub.p);
            && |M.Held(sub) + M.InFlight(t.mem, sub)| + sub.lost == |handed|
            && (sub.lost == 0 ==> M.Held(sub) + M.InFlight(t.mem, sub) == handed)
  {
    var sub, pub, log := t.mem.subs[i], M.Published(t.mem), t.mem.log;
    assert SubHolds(pub, sub);
    LiveIs(pub, sub);
    assert log[..sub.start] == pub[..sub.start];
    assert log[sub.start..] == pub[sub.start..] + t.mem.unpublished;
    SelectConcat(pub[sub.start..], t.mem.unpublished, M.Live(sub));
    var replay := M.Replay(pub[..sub.start], sub.cursor, sub.p);
    Associates(replay, Select(pub[sub.start..], M.Live(sub)), M.InFlight(t.mem, sub));
  }

  /** No event that was asked for came later with an id at or below the snapshot's last. */
  ghost predicate NoneLate(snapshot: seq<Event>, later: seq<Event>, cursor: Cursor, p: Event -> bool) {
    |snapshot| == 0 || forall e :: e in later && NotUpTo(cursor, p)(e) ==> e.id > snapshot[|snapshot| - 1].id
  }

  lemma MissesExactly(t: Tail, i: nat)
    requires Inv(t) && i < |t.mem.subs| && CursorInside(Snapshot(t, t.mem.subs[i]), t.mem.subs[i].cursor)
    ensures var sub := t.mem.subs[i];
            var snapshot, later := Snapshot(t, sub), Later(t, sub);
            (M.Held(sub) + M.InFlight(t.mem, sub) == Owed(snapshot, later, sub.cursor, sub.p) <==>
               sub.lost == 0 && NoneLate(snapshot, later, sub.cursor, sub.p))
  {
    var sub := t.mem.subs[i];
    WaitingIs(t, i);
    HandedExactly(Snapshot(t, sub), Later(t, sub), sub.cursor, sub.p);
  }

  /**
   * The live filter lets through only ids above the snapshot's last.  Over any run of foreign
   * writes, polls, appends, publications, subscriptions and takes, what a subscriber was handed
   * and what waits for it are all it asked for exactly when no event it asked for was taken in
   * later with an id at or below that one, as a foreign line may be, and nothing was pushed out
   * of its full window.
   */
  lemma FileSubscriberMisses(encode: Encoder, decode: Decoder, raw: seq<Byte>, steps: seq<Step>, i: nat)
    requires var t := Run(encode, decode, Start(decode, raw), steps);
             i < |t.mem.subs| && CursorInside(Snapshot(t, t.mem.subs[i]), t.mem.subs[i].cursor)
    ensures var t := Run(encode, decode, Start(decode, raw), steps);
            var sub := t.mem.subs[i];
            var snapshot, later := Snapshot(t, sub), Later(t, sub);
            (M.Held(sub) + M.InFlight(t.mem, sub) == Owed(snapshot, later, sub.cursor, sub.p) <==>
               && Never(Dropping(i), encode, decode, Start(decode, raw), steps)
               && NoneLate(snapshot, later, sub.cursor, sub.p))
  {
    var t := Run(encode, decode, Start(decode, raw), steps);
    RunHolds(encode, decode, Start(decode, raw), steps, i);
    MissesExactly(t, i);
  }

  // ----- a run that misses --------------------------------------------------------

  /** Someone subscribes, another process writes one line, and the poll that finds it publishes it. */
  function LateSteps(encode: Encoder, cursor: Cursor, p: Event -> bool, e: Event): seq<Step> {
    [Subscribe(cursor, p), Perform(Foreign(BatchBytes(encode, [e]))), Perform(Poll), Publish]
  }

  lemma RunMore(encode: Encoder, decode: Decoder, t: Tail, steps: seq<Step>, step: Step)
    requires t.mem.last >= 0.0
    ensures Run(encode, decode, t, steps + [step]) == Next(encode, decode, Run(encode, decode, t, steps), step)
  {
    assert (steps + [step])[..|steps|] == steps;
  }

  lemma FourSteps(encode: Encoder, decode: Decoder, t: Tail, a: Step, b: Step, c: Step, d: Step)
    requires t.mem.last >= 0.0
    ensures Run(encode, decode, t, [a, b, c, d]) ==
            Next(encode, decode, Next(encode, decode, Next(encode, decode, Next(encode, decode, t, a), b), c), d)
  {
    assert [] + [a] == [a] && [a] + [b] == [a, b] && [a, b] + [c] == [a, b, c] && [a, b, c] + [d] == [a, b, c, d];
    RunMore(encode, decode, t, [], a);
    RunMore(encode, decode, t, [a], b);
    RunMore(encode, decode, t, [a, b], c);
    RunMore(encode, decode, t, [a, b, c], d);
  }

  /** A poll that finds one new line is about to publish it. */
  lemma TakesLine(encode: Encoder, decode: Decoder, t: Tail, e: Event)
    requires Codec(encode, decode) && Encodable(e) && NewTo(t.file.store)(e) && t.file.readBytes == |t.file.file|
    requires t.mem.last >= 0.0 && |t.mem.unpublished| == 0 && t.mem.log == t.file.store
    ensures var foreign := Next(encode, decode, t, Perform(Foreign(BatchBytes(encode, [e]))));
            Next(encode, decode, foreign, Perform(Poll)).mem == t.mem.(log := t.mem.log + [e], unpublished := [e])
  {
    PollFinds(encode, decode, t.file, e);
    assert (t.mem.log + [e])[|t.mem.log|..] == [e];
  }

  lemma PublishesOne(s: M.State, sub: M.Subscriber, e: Event)
    requires s.last >= 0.0 && s.unpublished == [e] && s.subs == [sub]
    ensures M.Next(s, M.Publish) == s.(unpublished := [], subs := [M.Offer(sub, e)])
  {
  }

  /** The new line joins the log and is published to the one subscriber. */
  lemma LateJoins(encode: Encoder, decode: Decoder, raw: seq<Byte>, cursor: Cursor, p: Event -> bool, e: Event)
    requires Codec(encode, decode) && Encodable(e) && NewTo(Open(decode, raw).store)(e)
    ensures var s0 := Start(decode, raw);
            Run(encode, decode, s0, LateSteps(encode, cursor, p, e)).mem ==
              M.State(s0.mem.log + [e], 0.0, [], [M.Offer(M.NewSubscriber(s0.mem, cursor, p), e)])
  {
    var s0, steps := Start(decode, raw), LateSteps(encode, cursor, p, e);
    var joined := s0.(mem := M.Join(s0.mem, cursor, p));
    FourSteps(encode, decode, s0, steps[0], steps[1], steps[2], steps[3]);
    assert Next(encode, decode, s0, steps[0]) == joined;
    TakesLine(encode, decode, joined, e);
    PublishesOne(joined.mem.(log := s0.mem.log + [e], unpublished := [e]), M.NewSubscriber(s0.mem, cursor, p), e);
  }

  lemma PollFinds(encode: Encoder, decode: Decoder, s: State, e: Event)
    requires Codec(encode, decode) && Encodable(e) && NewTo(s.store)(e) && s.readBytes == |s.file|
    ensures PollOnce(decode, Grow(s, BatchBytes(encode, [e]))).store == s.store + [e]
  {
    WrittenScans(encode, decode, [e]);
    assert Unread(Grow(s, BatchBytes(encode, [e]))) == BatchBytes(encode, [e]);
    SelectAll([e], NewTo(s.store));
  }

  /**
   * From every file with events in it: another process writes a line whose id is new and not above
   * the last one, a poll takes it in, and a subscriber that asked for it is never handed it.
   */
  lemma LateLineIsMissed(encode: Encoder, decode: Decoder, raw: seq<Byte>, cursor: Cursor, p: Event -> bool, e: Event)
    requires Codec(encode, decode) && Encodable(e) && NewTo(Open(decode, raw).store)(e) && NotUpTo(cursor, p)(e)
    requires var store := Open(decode, raw).store; |store| > 0 && e.id <= store[|store| - 1].id
    ensures var store := Open(decode, raw).store;
            var t := Run(encode, decode, Start(decode, raw), LateSteps(encode, cursor, p, e));
            && t.mem.log == store + [e] && t.mem.unpublished == [] && |t.mem.subs| == 1
            && var sub := t.mem.subs[0];
               && M.Held(sub) == M.Replay(store, cursor, p) && Snapshot(t, sub) == store && Later(t, sub) == [e]
               && Owed(store, [e], cursor, p) == M.Replay(store, cursor, p) + [e]
  {
    var store, sub := Open(decode, raw).store, M.NewSubscriber(Start(decode, raw).mem, cursor, p);
    LateJoins(encode, decode, raw, cursor, p, e);
    SelectNone([e], M.Live(M.Offer(sub, e)));
    assert [] + [e] == [e];
    SelectAll([e], NotUpTo(cursor, p));
    assert M.Held(M.Offer(sub, e)) == [] + M.Replay(store, cursor, p) + [];
  }
}

/**
 * The reconnecting subscriber of the cloud store (packages/store-cloud/src/CloudStore.ts) against
 * a server that keeps appending.
 */
module CloudStore {
  import opened Wrappers
  import opened Events
  import M = MemoryStore
  import Ulid

  const PAGE_LIMIT: nat := 1024

  /** What the Subscribe stream carries. */
  datatype Item = Envelope(event: Event) | Heartbeat | UnknownSentinel

  /**
   * `page` holds fetched events not yet handed on, `at` the cursor of the next page.  `head` is
   * what the stream had delivered when the connection was made.
   */
  datatype Phase =
    | Draining(at: Cursor, page: seq<Event>)
    | Disconnected
    | Connected(sub: nat, wire: seq<Item>, head: seq<Event>)
    | Dead

  /**
   * One `subscribe` call.  `stream` is what the current attempt has delivered; an attempt that a
   * failed drain page ends moves to `abandoned`.  `gapped` records that some connection that has
   * ended had delivered an event from behind a gap in its server-side window.
   */
  datatype State = State(
    server: M.State,
    cursor: Cursor,
    p: Event -> bool,
    phase: Phase,
    lastDelivered: Cursor,
    abandoned: seq<seq<Event>>,
    stream: seq<Event>,
    gapped: bool)

  /**
   * The server is the whole machine of `MemoryStore`, with its other subscribers and its sliding
   * windows; the connection is a queue of items in flight that a failure throws away.  Which errors
   * are transient is decided in packages/store-cloud/src/Retry.ts; here a failure says which kind it
   * is, and the retry budget and its delays are not part of this model.
   */
  datatype Step =
    | Server(step: M.Step)
    | FetchPage
    | DeliverPage
    | DrainFails(transient: bool)
    | Connect
    | Send
    | Beat(item: Item)
    | Receive
    | ConnectionFails(transient: bool)

  function Start(server: M.State, cursor: Cursor, p: Event -> bool, drainBeforeSubscribe: bool): State {
    State(server, cursor, p, if drainBeforeSubscribe then Draining(cursor, []) else Disconnected,
      Latest, [], [], false)
  }

  /** Where a connection resumes: "latest" in `lastDelivered` means nothing was delivered yet. */
  function Resume(cursor: Cursor, lastDelivered: Cursor): Cursor {
    if lastDelivered.Latest? then cursor else lastDelivered
  }

  function Deliver(s: State, e: Event): State {
    s.(stream := s.stream + [e], lastDelivered := At(e.id))
  }

  function Delivered(s: State): seq<Event> {
    Flatten(s.abandoned) + s.stream
  }

  /** A step that does not apply in the current phase leaves the state alone. */
  function Next(s: State, step: Step): (r: State)
    requires s.server.last >= 0.0
    ensures r.server.last >= s.server.last
  {
    match step
    case Server(step) =>
      if s.phase.Connected? && step == M.Take(s.phase.sub) then s else s.(server := M.Next(s.server, step))
    case FetchPage =>
      if !s.phase.Draining? || |s.phase.page| > 0 then s else
        var page := QueryAfter(s.server.log, s.phase.at, s.p, PAGE_LIMIT);
        s.(phase := if |page| == 0 then Disconnected else Draining(At(page[|page| - 1].id), page))
    case DeliverPage =>
      if !s.phase.Draining? || |s.phase.page| == 0 then s else
        Deliver(s.(phase := Draining(s.phase.at, s.phase.page[1..])), s.phase.page[0])
    case DrainFails(transient) =>
      if !s.phase.Draining? || |s.phase.page| > 0 then s
      else if !transient then s.(phase := Dead)
      else s.(phase := Draining(s.cursor, []), abandoned := s.abandoned + [s.stream], stream := [])
    case Connect =>
      if !s.phase.Disconnected? || |s.server.unpublished| > 0 then s else
        s.(server := M.Join(s.server, Resume(s.cursor, s.lastDelivered), s.p),
           phase := Connected(|s.server.subs|, [], s.stream))
    case Send =>
      if !s.phase.Connected? || s.phase.sub >= |s.server.subs| then s else
        var sub, pulled := s.server.subs[s.phase.sub], M.Pull(s.server.subs[s.phase.sub]);
        var handed := if |pulled.got| > |sub.got| then [Envelope(pulled.got[|sub.got|])] else [];
        s.(server := M.Next(s.server, M.Take(s.phase.sub)), phase := s.phase.(wire := s.phase.wire + handed))
    case Beat(item) =>
      if !s.phase.Connected? || item.Envelope? then s else s.(phase := s.phase.(wire := s.phase.wire + [item]))
    case Receive =>
      if !s.phase.Connected? || |s.phase.wire| == 0 then s else
        var t := s.(phase := s.phase.(wire := s.phase.wire[1..]));
        (match s.phase.wire[0]
         case Envelope(e) => Deliver(t, e)
         case Heartbeat => t
         case UnknownSentinel => s.(phase := Dead, gapped := s.gapped || PastGap(s)))
    case ConnectionFails(transient) =>
      if !s.phase.Connected? then s else
        s.(phase := if transient then Disconnected else Dead, gapped := s.gapped || PastGap(s))
  }

  /** The current connection has delivered more than what its window holds together. */
  predicate PastGap(s: State) {
    && s.phase.Connected? && s.phase.sub < |s.server.subs|
    && var gap := s.server.subs[s.phase.sub].gap;
       gap.Some? && |s.stream| > |s.phase.head| + gap.value
  }

  /** Nothing was delivered from behind a gap. */
  predicate Gapless(s: State) {
    !s.gapped && !PastGap(s)
  }

  ghost predicate ValidSteps(steps: seq<Step>) {
    forall i :: 0 <= i < |steps| && steps[i].Server? ==> M.ValidStep(steps[i].step)
  }

  function Run(s: State, steps: seq<Step>): (r: State)
    requires s.server.last >= 0.0
    ensures r.server.last >= s.server.last
  {
    if |steps| == 0 then s else Next(Run(s, steps[..|steps| - 1]), steps[|steps| - 1])
  }

  /** Everything in the server's log the caller asked for. */
  function Asked(s: State): seq<Event> {
    Rest(s.server.log, s.cursor, s.p)
  }

  function Envelopes(wire: seq<Item>): seq<Event> {
    if |wire| == 0 then [] else
      Envelopes(wire[..|wire| - 1]) + if wire[|wire| - 1].Envelope? then [wire[|wire| - 1].event] else []
  }

  // ----- the invariant ------------------------------------------------------------

  /** What holds in each phase whatever was lost. */
  ghost predicate Shape(s: State)
    requires s.server.last >= 0.0
  {
    && (s.lastDelivered.Latest? <==> Delivered(s) == [])
    && (|s.stream| > 0 ==> s.lastDelivered == At(s.stream[|s.stream| - 1].id))
    && (s.phase.Draining? ==> s.phase.at == Position(s.cursor, s.stream + s.phase.page))
    && (s.phase.Connected? ==>
          && s.phase.sub < |s.server.subs| && s.phase.head <= s.stream
          && var sub := s.server.subs[s.phase.sub];
             sub.p == s.p && s.stream + Envelopes(s.phase.wire) == s.phase.head + sub.got)
  }

  ghost predicate AllPrefixes(parts: seq<seq<Event>>, whole: seq<Event>) {
    forall i :: 0 <= i < |parts| ==> parts[i] <= whole
  }

  /** What the drain leaves behind, whatever is lost later. */
  ghost predicate Drained(s: State) {
    && (s.phase.Draining? ==> !s.gapped)
    && AllPrefixes(s.abandoned, Asked(s))
    && (s.phase.Disconnected? || s.phase.Connected? ==> AllPrefixes(s.abandoned, s.stream))
  }

  /** What holds as long as nothing was delivered from behind a gap. */
  ghost predicate Faithful(s: State)
    requires s.server.last >= 0.0 && Shape(s)
  {
    && s.stream <= Asked(s)
    && (s.phase.Draining? ==> s.stream + s.phase.page <= Asked(s))
    && (s.phase.Connected? ==>
          && s.phase.head <= Asked(s)
          && M.Covered(s.server.subs[s.phase.sub])
          && s.server.subs[s.phase.sub].cursor == Position(s.cursor, s.phase.head))
  }

  ghost predicate Inv(s: State) {
    && M.Inv(s.server)
    && Shape(s)
    && M.Below(s.cursor, s.server)
    && (s.server.last.Floor < Ulid.STAMP_LIMIT ==> Drained(s) && (Gapless(s) ==> Faithful(s)))
  }

  /** What was asked for only grows, at its end. */
  lemma AskedGrows(s: State, s': State)
    requires s.server.log <= s'.server.log && s'.cursor == s.cursor && s'.p == s.p
    ensures Asked(s) <= Asked(s')
  {
    RestGrows(s.server.log, s'.server.log, s.cursor, s.p);
  }

  lemma PrefixesStay(parts: seq<seq<Event>>, a: seq<Event>, b: seq<Event>)
    requires AllPrefixes(parts, a) && a <= b
    ensures AllPrefixes(parts, b)
  {
  }

  /** Only the server has moved on, and not by handing this connection anything. */
  ghost predicate Moved(s: State, s': State)
    requires s.server.last >= 0.0
  {
    && s' == s.(server := s'.server)
    && M.Inv(s'.server) && M.Extends(s.server, s'.server) && |s.server.subs| <= |s'.server.subs|
    && (s.phase.Connected? && s.phase.sub < |s.server.subs| ==>
          M.SameSub(s.server.subs[s.phase.sub], s'.server.subs[s.phase.sub]))
  }

  lemma MovedShape(s: State, s': State)
    requires s.server.last >= 0.0 && Shape(s) && Moved(s, s')
    ensures Shape(s') && (Gapless(s') ==> Gapless(s))
  {
  }

  lemma MovedFaithful(s: State, s': State)
    requires s.server.last >= 0.0 && Shape(s) && Faithful(s) && Moved(s, s') && Shape(s')
    ensures Faithful(s')
  {
    AskedGrows(s, s');
  }

  lemma ServerKeeps(s: State, step: M.Step)
    requires Inv(s) && M.ValidStep(step) && !(s.phase.Connected? && step == M.Take(s.phase.sub))
    ensures Inv(s.(server := M.Next(s.server, step)))
  {
    var s' := s.(server := M.Next(s.server, step));
    M.StepLeaves(s.server, step);
    M.BelowStays(s.cursor, s.server, s'.server);
    MovedShape(s, s');
    AskedGrows(s, s');
    if s'.server.last.Floor < Ulid.STAMP_LIMIT {
      PrefixesStay(s.abandoned, Asked(s), Asked(s'));
      if Gapless(s') { MovedFaithful(s, s'); }
    }
  }

  // ----- the drain ----------------------------------------------------------------

  lemma PrefixRest(all: seq<Event>, x: seq<Event>)
    requires x <= all
    ensures all == x + all[|x|..]
  {
  }

  /** The next page continues the deliveries, and an empty one means they are complete. */
  lemma PageContinues(log: seq<Event>, cursor: Cursor, p: Event -> bool, x: seq<Event>)
    requires Ordered(log) && x <= Rest(log, cursor, p)
    ensures var page := QueryAfter(log, Position(cursor, x), p, PAGE_LIMIT);
            x + page <= Rest(log, cursor, p) && (|page| == 0 ==> x == Rest(log, cursor, p))
  {
    var all, at := Rest(log, cursor, p), Position(cursor, x);
    RestAt(log, cursor, p, x);
    QueryAfterMeans(log, at, p, PAGE_LIMIT);
    assert QueryAfter(log, at, p, PAGE_LIMIT) <= all[|x|..];
    PrefixRest(all, x);
  }

  lemma FetchKeeps(s: State)
    requires Inv(s) && s.phase.Draining? && |s.phase.page| == 0
    ensures Inv(Next(s, FetchPage))
  {
    assert s.stream + [] == s.stream;
    if s.server.last.Floor < Ulid.STAMP_LIMIT && Gapless(s) {
      PageContinues(s.server.log, s.cursor, s.p, s.stream);
    }
  }

  lemma DeliverKeeps(s: State)
    requires Inv(s) && s.phase.Draining? && |s.phase.page| > 0
    ensures Inv(Next(s, DeliverPage))
  {
    var s' := Next(s, DeliverPage);
    assert s'.stream + s'.phase.page == s.stream + s.phase.page;
  }

  lemma DrainFailKeeps(s: State, transient: bool)
    requires Inv(s)
    ensures Inv(Next(s, DrainFails(transient)))
  {
  }

  // ----- the connection -----------------------------------------------------------

  ghost predicate AllEmpty(parts: seq<seq<Event>>) {
    forall i :: 0 <= i < |parts| ==> parts[i] == []
  }

  lemma {:induction false} FlattenEmpties(parts: seq<seq<Event>>)
    ensures Flatten(parts) == [] <==> AllEmpty(parts)
  {
    if |parts| > 0 {
      var init, last := parts[..|parts| - 1], parts[|parts| - 1];
      FlattenEmpties(init);
      assert Flatten(parts) == Flatten(init) + last;
      if AllEmpty(init) && last == [] {
        forall i | 0 <= i < |parts| ensures parts[i] == [] {
          if i < |init| { assert parts[i] == init[i]; }
        }
      }
      if AllEmpty(parts) {
        forall i | 0 <= i < |init| ensures init[i] == [] { assert init[i] == parts[i]; }
      }
      assert |Flatten(parts)| == |Flatten(init)| + |last|;
    }
  }

  /** After the drain, a connection resumes right after the last delivery. */
  lemma ResumesInPlace(s: State)
    requires Inv(s) && s.phase.Disconnected? && s.server.last.Floor < Ulid.STAMP_LIMIT && Gapless(s)
    ensures Resume(s.cursor, s.lastDelivered) == Position(s.cursor, s.stream)
    ensures M.Covered(M.NewSubscriber(s.server, Resume(s.cursor, s.lastDelivered), s.p))
  {
    if |s.stream| == 0 {
      FlattenEmpties(s.abandoned);
    } else {
      var last := s.stream[|s.stream| - 1];
      assert last in Asked(s);
      SelectMember(s.server.log, Wants(s.cursor, s.p), last);
    }
  }

  lemma ConnectKeeps(s: State)
    requires Inv(s) && s.phase.Disconnected? && |s.server.unpublished| == 0
    ensures Inv(Next(s, Connect))
  {
    var s', resume := Next(s, Connect), Resume(s.cursor, s.lastDelivered);
    M.SubscribeKeeps(s.server, resume, s.p);
    assert s.stream + [] == s.stream;
    if s.server.last.Floor < Ulid.STAMP_LIMIT && Gapless(s') { ResumesInPlace(s); }
  }

  lemma EnvelopesPush(wire: seq<Item>, item: Item)
    ensures Envelopes(wire + [item]) == Envelopes(wire) + if item.Envelope? then [item.event] else []
  {
    assert (wire + [item])[..|wire|] == wire;
  }

  lemma {:induction false} EnvelopesPop(wire: seq<Item>)
    requires |wire| > 0
    ensures Envelopes(wire) == (if wire[0].Envelope? then [wire[0].event] else []) + Envelopes(wire[1..])
  {
    if |wire| > 1 {
      var init := wire[..|wire| - 1];
      EnvelopesPop(init);
      assert wire[1..][..|wire| - 2] == init[1..];
    } else {
      assert wire[..0] == [] && wire[1..] == [];
    }
  }

  /** The wire gets exactly what the server-side pull handed out. */
  lemma SendWires(s: State) returns (handed: seq<Event>)
    requires s.server.last >= 0.0 && s.phase.Connected? && s.phase.sub < |s.server.subs|
    ensures var s' := Next(s, Send);
            && s'.phase.Connected? && s'.server == M.Next(s.server, M.Take(s.phase.sub))
            && s' == s.(server := s'.server, phase := s.phase.(wire := s'.phase.wire))
            && s'.server.subs[s.phase.sub].got == s.server.subs[s.phase.sub].got + handed
            && Envelopes(s'.phase.wire) == Envelopes(s.phase.wire) + handed
  {
    var sub, pulled := s.server.subs[s.phase.sub], M.Pull(s.server.subs[s.phase.sub]);
    if |pulled.got| > |sub.got| {
      handed := [pulled.got[|sub.got|]];
      EnvelopesPush(s.phase.wire, Envelope(handed[0]));
    } else {
      handed := [];
      assert s.phase.wire + [] == s.phase.wire;
    }
  }

  /** The subscription's progress and the wire grow by the same events. */
  lemma SentKeeps(s: State, server: M.State, wire: seq<Item>, handed: seq<Event>)
    requires Inv(s) && s.phase.Connected? && M.Inv(server)
    requires server.log == s.server.log && server.last == s.server.last && s.phase.sub < |server.subs|
    requires var before, after := s.server.subs[s.phase.sub], server.subs[s.phase.sub];
             && after.got == before.got + handed && after.cursor == before.cursor && after.p == before.p
             && after.floor == before.floor && after.gap == before.gap
    requires Envelopes(wire) == Envelopes(s.phase.wire) + handed
    ensures Inv(s.(server := server, phase := s.phase.(wire := wire)))
  {
    Associates(s.stream, Envelopes(s.phase.wire), handed);
    Associates(s.phase.head, s.server.subs[s.phase.sub].got, handed);
  }

  lemma SendKeeps(s: State)
    requires Inv(s) && s.phase.Connected?
    ensures Inv(Next(s, Send))
  {
    var handed := SendWires(s);
    var _ := M.PullHands(s.server.subs[s.phase.sub]);
    M.TakeKeeps(s.server, s.phase.sub);
    var s' := Next(s, Send);
    SentKeeps(s, s'.server, s'.phase.wire, handed);
  }

  /** Items that carry no event may come and go on the wire. */
  lemma SameEnvelopesKeep(s: State, wire: seq<Item>)
    requires Inv(s) && s.phase.Connected? && Envelopes(wire) == Envelopes(s.phase.wire)
    ensures Inv(s.(phase := s.phase.(wire := wire)))
  {
    var s' := s.(phase := s.phase.(wire := wire));
    assert PastGap(s') == PastGap(s) && Asked(s') == Asked(s);
    assert Shape(s');
    if Faithful(s) { assert Faithful(s'); }
  }

  lemma BeatKeeps(s: State, item: Item)
    requires Inv(s) && s.phase.Connected? && !item.Envelope?
    ensures Inv(Next(s, Beat(item)))
  {
    EnvelopesPush(s.phase.wire, item);
    assert Envelopes(s.phase.wire) + [] == Envelopes(s.phase.wire);
    SameEnvelopesKeep(s, s.phase.wire + [item]);
  }

  /** What a connection asks of the server is what is left of what was asked for. */
  lemma ConnectionAsks(s: State)
    requires Inv(s) && s.phase.Connected? && s.server.last.Floor < Ulid.STAMP_LIMIT && Gapless(s)
    ensures Asked(s) == s.phase.head + Select(s.server.log, M.WantsOf(s.server.subs[s.phase.sub]))
  {
    var sub, head := s.server.subs[s.phase.sub], s.phase.head;
    RestAt(s.server.log, s.cursor, s.p, head);
    SelectAgree(s.server.log, M.WantsOf(sub), Wants(sub.cursor, sub.p));
    PrefixRest(Asked(s), head);
  }

  /** `n` events received over a connection continue its head exactly up to the gap. */
  lemma ReceivedUpToGap(s: State, n: nat)
    requires Inv(s) && s.phase.Connected? && s.server.last.Floor < Ulid.STAMP_LIMIT && Gapless(s)
    requires n <= |s.server.subs[s.phase.sub].got|
    ensures var sub := s.server.subs[s.phase.sub];
            s.phase.head + sub.got[..n] <= Asked(s) <==> !M.PastGap(sub, n)
  {
    var sub, head := s.server.subs[s.phase.sub], s.phase.head;
    var owed := Select(s.server.log, M.WantsOf(sub));
    ConnectionAsks(s);
    M.HandedUpToGap(s.server, s.phase.sub, n);
    PrefixAfter(head, sub.got[..n], owed);
  }

  lemma PrefixAfter(a: seq<Event>, x: seq<Event>, y: seq<Event>)
    ensures a + x <= a + y <==> x <= y
  {
    if a + x <= a + y { assert x == (a + x)[|a|..] && y == (a + y)[|a|..]; }
  }

  /** What a connection has delivered, as a part of what the server handed out. */
  lemma StreamIsGot(s: State, n: nat)
    requires Inv(s) && s.phase.Connected? && |s.phase.head| <= n <= |s.stream + Envelopes(s.phase.wire)|
    ensures var sub := s.server.subs[s.phase.sub];
            && n - |s.phase.head| <= |sub.got|
            && (s.stream + Envelopes(s.phase.wire))[..n] == s.phase.head + sub.got[..n - |s.phase.head|]
  {
  }

  /**
   * What a connection has delivered and what its wire still carries is the beginning of what was
   * asked for exactly when the server has sent nothing from behind a gap.
   */
  lemma WireIsAsked(s: State)
    requires Inv(s) && s.phase.Connected? && s.server.last.Floor < Ulid.STAMP_LIMIT && Gapless(s)
    ensures var sub := s.server.subs[s.phase.sub];
            s.stream + Envelopes(s.phase.wire) <= Asked(s) <==> !M.PastGap(sub, |sub.got|)
  {
    var sub := s.server.subs[s.phase.sub];
    ReceivedUpToGap(s, |sub.got|);
    assert sub.got[..|sub.got|] == sub.got;
  }

  /** One more event received is the next one asked for exactly when the connection has not passed its gap. */
  lemma NextReceived(s: State, e: Event)
    requires Inv(s) && s.phase.Connected? && s.server.last.Floor < Ulid.STAMP_LIMIT && Gapless(s)
    requires |s.phase.wire| > 0 && s.phase.wire[0] == Envelope(e)
    ensures var sub := s.server.subs[s.phase.sub];
            s.stream + [e] <= Asked(s) <==> !M.PastGap(sub, |s.stream| + 1 - |s.phase.head|)
  {
    var all, n := s.stream + Envelopes(s.phase.wire), |s.stream| + 1;
    EnvelopesPop(s.phase.wire);
    assert all[..n] == s.stream + [e];
    StreamIsGot(s, n);
    ReceivedUpToGap(s, n - |s.phase.head|);
  }

  lemma ReceiveEnvelopeKeeps(s: State, e: Event)
    requires Inv(s) && s.phase.Connected? && |s.phase.wire| > 0 && s.phase.wire[0] == Envelope(e)
    ensures Inv(Deliver(s.(phase := s.phase.(wire := s.phase.wire[1..])), e))
  {
    var s' := Deliver(s.(phase := s.phase.(wire := s.phase.wire[1..])), e);
    EnvelopesPop(s.phase.wire);
    Associates(s.stream, [e], Envelopes(s.phase.wire[1..]));
    if s.server.last.Floor < Ulid.STAMP_LIMIT && Gapless(s') { NextReceived(s, e); }
  }

  lemma ReceiveKeeps(s: State)
    requires Inv(s) && s.phase.Connected? && |s.phase.wire| > 0
    ensures Inv(Next(s, Receive))
  {
    match s.phase.wire[0] {
      case Envelope(e) => ReceiveEnvelopeKeeps(s, e);
      case Heartbeat =>
        EnvelopesPop(s.phase.wire);
        SameEnvelopesKeep(s, s.phase.wire[1..]);
      case UnknownSentinel =>
    }
  }

  lemma EndKeeps(s: State, transient: bool)
    requires Inv(s) && s.phase.Connected?
    ensures Inv(Next(s, ConnectionFails(transient)))
  {
  }

  /** One step of the client, the network or the server keeps the invariant. */
  lemma StepKeeps(s: State, step: Step)
    requires Inv(s) && (step.Server? ==> M.ValidStep(step.step))
    ensures Inv(Next(s, step))
  {
    match step {
      case Server(inner) =>
        if !(s.phase.Connected? && inner == M.Take(s.phase.sub)) { ServerKeeps(s, inner); }
      case FetchPage => if s.phase.Draining? && |s.phase.page| == 0 { FetchKeeps(s); }
      case DeliverPage => if s.phase.Draining? && |s.phase.page| > 0 { DeliverKeeps(s); }
      case DrainFails(transient) => DrainFailKeeps(s, transient);
      case Connect => if s.phase.Disconnected? && |s.server.unpublished| == 0 { ConnectKeeps(s); }
      case Send => if s.phase.Connected? { SendKeeps(s); }
      case Beat(item) => if s.phase.Connected? && !item.Envelope? { BeatKeeps(s, item); }
      case Receive => if s.phase.Connected? && |s.phase.wire| > 0 { ReceiveKeeps(s); }
      case ConnectionFails(transient) => if s.phase.Connected? { EndKeeps(s, transient); }
    }
  }

  lemma {:induction false} RunKeeps(s: State, steps: seq<Step>)
    requires Inv(s) && ValidSteps(steps)
    ensures Inv(Run(s, steps))
  {
    if |steps| > 0 {
      RunKeeps(s, steps[..|steps| - 1]);
      StepKeeps(Run(s, steps[..|steps| - 1]), steps[|steps| - 1]);
    }
  }

  // ----- whatever windows overflow ------------------------------------------------

  /** In order, without repeats, from the log, and asked for. */
  ghost predicate Proper(s: State, x: seq<Event>) {
    Ordered(x) && forall e :: e in x ==> e in s.server.log && Wants(s.cursor, s.p)(e)
  }

  /** What is delivered or on its way, whatever was lost. */
  ghost predicate Orderly(s: State)
    requires s.server.last >= 0.0 && Shape(s)
  {
    && (forall i :: 0 <= i < |s.abandoned| ==> Proper(s, s.abandoned[i]))
    && Proper(s, s.stream)
    && (s.phase.Draining? ==> Proper(s, s.stream + s.phase.page))
    && (s.phase.Connected? ==>
          && Proper(s, s.phase.head)
          && M.Covered(s.server.subs[s.phase.sub])
          && s.server.subs[s.phase.sub].cursor == Position(s.cursor, s.phase.head))
  }

  ghost predicate OrderInv(s: State) {
    Inv(s) && (s.server.last.Floor < Ulid.STAMP_LIMIT ==> Orderly(s))
  }

  /** A step whose result is to be orderly too. */
  ghost predicate Continues(s: State, s': State) {
    OrderInv(s) && s.server.last <= s'.server.last && s'.server.last.Floor < Ulid.STAMP_LIMIT && Shape(s')
  }

  /** The same without what only the server's invariant is needed for. */
  ghost predicate Stays(s: State, s': State) {
    s.server.last >= 0.0 && s'.server.last >= 0.0 && Shape(s) && Orderly(s) && Shape(s')
  }

  lemma ProperPrefix(s: State, x: seq<Event>, y: seq<Event>)
    requires Proper(s, x + y)
    ensures Proper(s, x)
  {
    forall i, j | 0 <= i < j < |x| ensures x[i].id < x[j].id {
      assert (x + y)[i] == x[i] && (x + y)[j] == x[j];
    }
    forall e | e in x ensures e in x + y { }
  }

  /** Anything a read from the position after `x` gives may follow `x`. */
  lemma ProperThen(s: State, x: seq<Event>, y: seq<Event>)
    requires Proper(s, x) && Ordered(y)
    requires forall e :: e in y ==> e in s.server.log && Wants(Position(s.cursor, x), s.p)(e)
    ensures Proper(s, x + y)
  {
    forall i, j | 0 <= i < j < |x + y| ensures (x + y)[i].id < (x + y)[j].id {
      if i < |x| <= j {
        assert y[j - |x|] in y;
        assert x[i].id <= x[|x| - 1].id;
      }
    }
    forall e | e in y ensures Wants(s.cursor, s.p)(e) {
      if |x| > 0 { assert x[|x| - 1] in x; }
    }
  }

  /** A page may follow what was delivered. */
  lemma PageIsProper(s: State)
    requires OrderInv(s) && s.phase.Draining? && |s.phase.page| == 0 && s.server.last.Floor < Ulid.STAMP_LIMIT
    ensures Proper(s, s.stream + QueryAfter(s.server.log, s.phase.at, s.p, PAGE_LIMIT))
  {
    var all := Rest(s.server.log, s.phase.at, s.p);
    assert s.stream + [] == s.stream;
    QueryAfterMeans(s.server.log, s.phase.at, s.p, PAGE_LIMIT);
    SelectOrdered(s.server.log, Wants(s.phase.at, s.p));
    SelectMembers(s.server.log, Wants(s.phase.at, s.p));
    ProperThen(s, s.stream, Slice(all, PAGE_LIMIT));
  }

  lemma FetchOrders(s: State)
    requires s.server.last >= 0.0 && Continues(s, Next(s, FetchPage)) && s.phase.Draining? && |s.phase.page| == 0
    ensures Orderly(Next(s, FetchPage))
  {
    PageIsProper(s);
    FetchedOrders(s);
  }

  lemma FetchedOrders(s: State)
    requires s.server.last >= 0.0 && Stays(s, Next(s, FetchPage)) && s.phase.Draining? && |s.phase.page| == 0
    requires Proper(s, s.stream + QueryAfter(s.server.log, s.phase.at, s.p, PAGE_LIMIT))
    ensures Orderly(Next(s, FetchPage))
  {
    var s' := Next(s, FetchPage);
    ProperStays(s, s', s.stream);
    ProperStays(s, s', s.stream + QueryAfter(s.server.log, s.phase.at, s.p, PAGE_LIMIT));
    forall i | 0 <= i < |s.abandoned| ensures Proper(s', s.abandoned[i]) {
      ProperStays(s, s', s.abandoned[i]);
    }
  }

  lemma DeliverOrders(s: State)
    requires s.server.last >= 0.0 && Stays(s, Next(s, DeliverPage)) && s.phase.Draining? && |s.phase.page| > 0
    ensures Orderly(Next(s, DeliverPage))
  {
    var s' := Next(s, DeliverPage);
    assert s'.stream + s'.phase.page == s.stream + s.phase.page;
    ProperPrefix(s', s'.stream, s'.phase.page);
  }

  /** A new connection starts right after the last delivery, at a cursor the server has passed. */
  lemma ConnectsInPlace(s: State)
    requires OrderInv(s) && s.phase.Disconnected? && s.server.last.Floor < Ulid.STAMP_LIMIT
    ensures Resume(s.cursor, s.lastDelivered) == Position(s.cursor, s.stream)
    ensures M.Covered(M.NewSubscriber(s.server, Position(s.cursor, s.stream), s.p))
  {
    if |s.stream| > 0 { assert s.stream[|s.stream| - 1] in s.stream; } else { FlattenEmpties(s.abandoned); }
  }

  lemma ConnectOrders(s: State)
    requires s.server.last >= 0.0 && Continues(s, Next(s, Connect))
    requires s.phase.Disconnected? && |s.server.unpublished| == 0
    ensures Orderly(Next(s, Connect))
  {
    ConnectsInPlace(s);
    ConnectedOrders(s);
  }

  lemma ConnectedOrders(s: State)
    requires s.server.last >= 0.0 && Stays(s, Next(s, Connect))
    requires s.phase.Disconnected? && |s.server.unpublished| == 0
    requires Resume(s.cursor, s.lastDelivered) == Position(s.cursor, s.stream)
    requires M.Covered(M.NewSubscriber(s.server, Position(s.cursor, s.stream), s.p))
    ensures Orderly(Next(s, Connect))
  {
    assert Next(s, Connect).server.subs[|s.server.subs|]
        == M.NewSubscriber(s.server, Position(s.cursor, s.stream), s.p);
  }

  /** What a subscription has handed out, read off the server's invariant. */
  lemma GotIsProper(server: M.State, k: nat)
    requires M.Inv(server) && server.last.Floor < Ulid.STAMP_LIMIT
    requires k < |server.subs| && M.Covered(server.subs[k]) && !server.subs[k].cursor.Latest?
    ensures var sub := server.subs[k];
      Ordered(sub.got) && forall e :: e in sub.got ==> e in server.log && Wants(sub.cursor, sub.p)(e)
  {
    var sub, pub := server.subs[k], M.Published(server);
    assert M.SubInv(server.log, pub, sub);
    M.TakenIsAsked(pub, sub);
    forall i | 0 <= i < |sub.got| ensures sub.got[i] == M.Taken(sub)[i] { }
    forall e | e in sub.got ensures e in server.log && Wants(sub.cursor, sub.p)(e) {
      assert e in M.Taken(sub);
      SelectMember(pub, M.WantsOf(sub), e);
      assert M.WantsOf(sub)(e) == Wants(sub.cursor, sub.p)(e);
    }
  }

  /** All a connection has delivered and sent is in order, even where its window dropped events. */
  lemma WireIsProper(s: State)
    requires OrderInv(s) && s.phase.Connected? && s.server.last.Floor < Ulid.STAMP_LIMIT
    ensures Proper(s, s.stream + Envelopes(s.phase.wire))
  {
    assert !Position(s.cursor, s.phase.head).Latest?;
    GotIsProper(s.server, s.phase.sub);
    ProperThen(s, s.phase.head, s.server.subs[s.phase.sub].got);
  }

  /** The connection's terms: nothing in a connection's life changes them. */
  ghost predicate SameTerms(s: State, s': State) {
    && s'.cursor == s.cursor && s'.p == s.p && s'.gapped == s.gapped && s'.abandoned == s.abandoned
    && s.server.log <= s'.server.log
    && s.phase.Connected? && s'.phase.Connected? && s'.phase.sub == s.phase.sub && s'.phase.head == s.phase.head
    && s.phase.sub < |s.server.subs| && s.phase.sub < |s'.server.subs|
    && var before, after := s.server.subs[s.phase.sub], s'.server.subs[s.phase.sub];
       after.cursor == before.cursor && after.floor == before.floor
  }

  lemma ProperStays(s: State, s': State, x: seq<Event>)
    requires Proper(s, x) && s.server.log <= s'.server.log && s'.cursor == s.cursor && s'.p == s.p
    ensures Proper(s', x)
  {
    forall e | e in x ensures e in s'.server.log { assert e in s.server.log; }
  }

  lemma ConnectionStaysOrderly(s: State, s': State)
    requires s.server.last >= 0.0 && Shape(s) && Orderly(s) && s'.server.last >= 0.0 && Shape(s')
    requires SameTerms(s, s') && Proper(s', s'.stream)
    requires s'.stream == [] ==> s.stream == []
    ensures Orderly(s')
  {
    ProperStays(s, s', s.phase.head);
    forall i | 0 <= i < |s.abandoned| ensures Proper(s', s.abandoned[i]) {
      ProperStays(s, s', s.abandoned[i]);
    }
  }

  /** So is what has been delivered once the next item is received. */
  lemma ReceiveProper(s: State)
    requires OrderInv(s) && s.phase.Connected? && |s.phase.wire| > 0 && s.server.last.Floor < Ulid.STAMP_LIMIT
    ensures Proper(s, s.stream + Envelopes([s.phase.wire[0]]))
  {
    var head, rest := Envelopes([s.phase.wire[0]]), Envelopes(s.phase.wire[1..]);
    WireIsProper(s);
    EnvelopesPop(s.phase.wire);
    EnvelopesPush([], s.phase.wire[0]);
    assert [] + [s.phase.wire[0]] == [s.phase.wire[0]];
    assert Envelopes(s.phase.wire) == head + rest;
    Associates(s.stream, head, rest);
    ProperPrefix(s, s.stream + head, rest);
  }

  /** What a received item, unless it is unknown, leaves as it was. */
  lemma ReceiveTerms(s: State)
    requires s.server.last >= 0.0 && Shape(s) && s.phase.Connected? && |s.phase.wire| > 0
    requires !s.phase.wire[0].UnknownSentinel?
    ensures SameTerms(s, Next(s, Receive))
    ensures Next(s, Receive).stream == s.stream + Envelopes([s.phase.wire[0]])
    ensures Next(s, Receive).server == s.server
  {
    EnvelopesPush([], s.phase.wire[0]);
    assert [] + [s.phase.wire[0]] == [s.phase.wire[0]] && s.stream + [] == s.stream;
  }

  lemma ReceiveOrders(s: State)
    requires s.server.last >= 0.0 && Continues(s, Next(s, Receive)) && s.phase.Connected?
    ensures Orderly(Next(s, Receive))
  {
    if |s.phase.wire| > 0 {
      if s.phase.wire[0].UnknownSentinel? { DisconnectedOrders(s, Next(s, Receive)); } else { KnownOrders(s); }
    }
  }

  lemma KnownOrders(s: State)
    requires s.server.last >= 0.0 && Continues(s, Next(s, Receive)) && s.phase.Connected? && |s.phase.wire| > 0
    requires !s.phase.wire[0].UnknownSentinel?
    ensures Orderly(Next(s, Receive))
  {
    ReceiveProper(s);
    ReceivedOrders(s);
  }

  lemma ReceivedOrders(s: State)
    requires s.server.last >= 0.0 && Stays(s, Next(s, Receive)) && s.phase.Connected? && |s.phase.wire| > 0
    requires !s.phase.wire[0].UnknownSentinel? && Proper(s, s.stream + Envelopes([s.phase.wire[0]]))
    ensures Orderly(Next(s, Receive))
  {
    ReceiveTerms(s);
    ConnectionStaysOrderly(s, Next(s, Receive));
  }

  lemma SendTerms(s: State)
    requires s.server.last >= 0.0 && Shape(s) && s.phase.Connected?
    ensures SameTerms(s, Next(s, Send))
    ensures Next(s, Send).stream == s.stream && Next(s, Send).server.log == s.server.log
  {
    var _ := M.PullHands(s.server.subs[s.phase.sub]);
    var _ := SendWires(s);
  }

  lemma SendOrders(s: State)
    requires s.server.last >= 0.0 && Stays(s, Next(s, Send)) && s.phase.Connected?
    ensures Orderly(Next(s, Send))
  {
    SendTerms(s);
    ConnectionStaysOrderly(s, Next(s, Send));
  }

  lemma ServerOrders(s: State, step: M.Step)
    requires s.server.last >= 0.0 && Continues(s, s.(server := M.Next(s.server, step)))
    requires M.ValidStep(step) && !(s.phase.Connected? && step == M.Take(s.phase.sub))
    ensures Orderly(s.(server := M.Next(s.server, step)))
  {
    var s' := s.(server := M.Next(s.server, step));
    M.StepLeaves(s.server, step);
    ProperStays(s, s', s.stream);
    if s.phase.Connected? {
      ConnectionStaysOrderly(s, s');
    } else {
      if s.phase.Draining? { ProperStays(s, s', s.stream + s.phase.page); }
      forall i | 0 <= i < |s.abandoned| ensures Proper(s', s.abandoned[i]) {
        ProperStays(s, s', s.abandoned[i]);
      }
    }
  }

  /** A drain that starts over keeps what it gave up among the attempts. */
  lemma DrainFailOrders(s: State, transient: bool)
    requires s.server.last >= 0.0 && Stays(s, Next(s, DrainFails(transient)))
    requires s.phase.Draining? && |s.phase.page| == 0
    ensures Orderly(Next(s, DrainFails(transient)))
  {
    var s' := Next(s, DrainFails(transient));
    forall i | 0 <= i < |s'.abandoned| ensures Proper(s', s'.abandoned[i]) {
      if i < |s.abandoned| { ProperStays(s, s', s.abandoned[i]); } else { ProperStays(s, s', s.stream); }
    }
  }

  /** Losing the connection leaves the deliveries as they are. */
  lemma DisconnectedOrders(s: State, s': State)
    requires Stays(s, s') && s.phase.Connected? && (s'.phase.Disconnected? || s'.phase.Dead?)
    requires s' == s.(phase := s'.phase, gapped := s'.gapped)
    ensures Orderly(s')
  {
    ProperStays(s, s', s.stream);
    forall i | 0 <= i < |s.abandoned| ensures Proper(s', s.abandoned[i]) {
      ProperStays(s, s', s.abandoned[i]);
    }
  }

  lemma BeatOrders(s: State, item: Item)
    requires s.server.last >= 0.0 && Stays(s, Next(s, Beat(item))) && s.phase.Connected?
    ensures Orderly(Next(s, Beat(item)))
  {
    if !item.Envelope? { ConnectionStaysOrderly(s, Next(s, Beat(item))); }
  }

  lemma FailureOrders(s: State, transient: bool)
    requires s.server.last >= 0.0 && Stays(s, Next(s, ConnectionFails(transient))) && s.phase.Connected?
    ensures Orderly(Next(s, ConnectionFails(transient)))
  {
    DisconnectedOrders(s, Next(s, ConnectionFails(transient)));
  }

  lemma DrainStepOrders(s: State, step: Step)
    requires s.server.last >= 0.0 && Continues(s, Next(s, step))
    requires step.FetchPage? || step.DeliverPage? || step.DrainFails? || step.Connect?
    ensures Orderly(Next(s, step))
  {
    match step {
      case FetchPage => if s.phase.Draining? && |s.phase.page| == 0 { FetchOrders(s); }
      case DeliverPage => if s.phase.Draining? && |s.phase.page| > 0 { DeliverOrders(s); }
      case DrainFails(transient) => if s.phase.Draining? && |s.phase.page| == 0 { DrainFailOrders(s, transient); }
      case Connect => if s.phase.Disconnected? && |s.server.unpublished| == 0 { ConnectOrders(s); }
    }
  }

  lemma WireStepOrders(s: State, step: Step)
    requires s.server.last >= 0.0 && Continues(s, Next(s, step)) && s.phase.Connected?
    requires step.Send? || step.Beat? || step.Receive? || step.ConnectionFails?
    ensures Orderly(Next(s, step))
  {
    match step {
      case Send => SendOrders(s);
      case Beat(item) => BeatOrders(s, item);
      case Receive => ReceiveOrders(s);
      case ConnectionFails(transient) => FailureOrders(s, transient);
    }
  }

  lemma StepOrders(s: State, step: Step)
    requires s.server.last >= 0.0 && Continues(s, Next(s, step)) && (step.Server? ==> M.ValidStep(step.step))
    ensures Orderly(Next(s, step))
  {
    if step.Server? {
      if !(s.phase.Connected? && step.step == M.Take(s.phase.sub)) { ServerOrders(s, step.step); }
    } else if step.FetchPage? || step.DeliverPage? || step.DrainFails? || step.Connect? {
      DrainStepOrders(s, step);
    } else if s.phase.Connected? {
      WireStepOrders(s, step);
    }
  }

  lemma {:induction false} RunStaysOrderly(s: State, steps: seq<Step>)
    requires OrderInv(s) && ValidSteps(steps)
    ensures OrderInv(Run(s, steps))
  {
    if |steps| > 0 {
      var before, step := Run(s, steps[..|steps| - 1]), steps[|steps| - 1];
      RunStaysOrderly(s, steps[..|steps| - 1]);
      StepKeeps(before, step);
      if Next(before, step).server.last.Floor < Ulid.STAMP_LIMIT { StepOrders(before, step); }
    }
  }

  // ----- the delivery theorems ----------------------------------------------------

  lemma StartInv(server: M.State, cursor: Cursor, p: Event -> bool, drain: bool)
    requires M.Inv(server) && M.Below(cursor, server)
    ensures Inv(Start(server, cursor, p, drain))
  {
  }

  /**
   * However far a subscriber falls behind its windows, through any failures and reconnects: every
   * attempt delivers in order, without repeats, and only events asked for.
   */
  lemma AtWorstGaps(server: M.State, cursor: Cursor, p: Event -> bool, drain: bool, steps: seq<Step>)
    requires M.Inv(server) && M.Below(cursor, server) && ValidSteps(steps)
    requires Run(Start(server, cursor, p, drain), steps).server.last.Floor < Ulid.STAMP_LIMIT
    ensures var s := Run(Start(server, cursor, p, drain), steps);
      forall x :: x == s.stream || x in s.abandoned ==>
        Ordered(x) && forall e :: e in x ==> e in s.server.log && Wants(s.cursor, s.p)(e)
  {
    StartInv(server, cursor, p, drain);
    RunStaysOrderly(Start(server, cursor, p, drain), steps);
    var s := Run(Start(server, cursor, p, drain), steps);
    assert Orderly(s);
  }

  /** No step of the run is bad in the state it is taken in. */
  ghost predicate Never(bad: (State, Step) -> bool, s: State, steps: seq<Step>)
    requires s.server.last >= 0.0
  {
    |steps| == 0 ||
      (Never(bad, s, steps[..|steps| - 1]) && !bad(Run(s, steps[..|steps| - 1]), steps[|steps| - 1]))
  }

  /** The client receives an event that left the server's window after a wanted one had been pushed out of it. */
  predicate ReceivesPastGap(s: State, step: Step) {
    && step == Receive && s.phase.Connected? && |s.phase.wire| > 0 && s.phase.wire[0].Envelope?
    && s.phase.sub < |s.server.subs|
    && var gap := s.server.subs[s.phase.sub].gap;
       gap.Some? && |s.stream| >= |s.phase.head| + gap.value
  }

  /** A gap opens behind everything handed out so far. */
  lemma ServerStaysGapless(s: State, step: M.Step)
    requires Inv(s) && M.ValidStep(step) && !(s.phase.Connected? && step == M.Take(s.phase.sub))
    ensures Gapless(s.(server := M.Next(s.server, step))) <==> Gapless(s)
  {
    M.StepLeaves(s.server, step);
    if s.phase.Connected? {
      var sub := s.server.subs[s.phase.sub];
      assert |s.stream| <= |s.phase.head + sub.got|;
    }
  }

  lemma SendStaysGapless(s: State)
    requires Inv(s) && s.phase.Connected?
    ensures Gapless(Next(s, Send)) <==> Gapless(s)
  {
    var _ := M.PullHands(s.server.subs[s.phase.sub]);
    var _ := SendWires(s);
  }

  lemma ReceivePassesGap(s: State)
    requires Inv(s) && s.phase.Connected? && |s.phase.wire| > 0
    ensures Gapless(Next(s, Receive)) <==> Gapless(s) && !ReceivesPastGap(s, Receive)
  {
  }

  /** Losing a connection remembers whether it passed its gap. */
  lemma EndRemembersGap(s: State, s': State)
    requires Inv(s) && s.phase.Connected? && !s'.phase.Connected? && s'.gapped == (s.gapped || PastGap(s))
    ensures Gapless(s') <==> Gapless(s)
  {
  }

  /** Only such a step passes a gap, and it always does. */
  lemma StepPassesGap(s: State, step: Step)
    requires Inv(s) && (step.Server? ==> M.ValidStep(step.step))
    ensures Gapless(Next(s, step)) <==> Gapless(s) && !ReceivesPastGap(s, step)
  {
    match step {
      case Server(inner) => if !(s.phase.Connected? && inner == M.Take(s.phase.sub)) { ServerStaysGapless(s, inner); }
      case Send => if s.phase.Connected? { SendStaysGapless(s); }
      case Receive => if s.phase.Connected? && |s.phase.wire| > 0 { ReceivePassesGap(s); }
      case ConnectionFails(_) => if s.phase.Connected? { EndRemembersGap(s, Next(s, step)); }
      case _ =>
    }
  }

  lemma {:induction false} GaplessExactly(s: State, steps: seq<Step>)
    requires Inv(s) && ValidSteps(steps) && Gapless(s)
    ensures Gapless(Run(s, steps)) <==> Never(ReceivesPastGap, s, steps)
  {
    if |steps| > 0 {
      var init := steps[..|steps| - 1];
      RunKeeps(s, init);
      GaplessExactly(s, init);
      StepPassesGap(Run(s, init), steps[|steps| - 1]);
    }
  }

  /** Once an event from behind a gap is delivered, the stream is not the beginning of what was asked for. */
  ghost predicate GapInv(s: State) {
    OrderInv(s) && (s.server.last.Floor < Ulid.STAMP_LIMIT && !Gapless(s) ==> !(s.stream <= Asked(s)))
  }

  /** An in-order part of what was asked for that is not its beginning never will be. */
  lemma StaysOff(log: seq<Event>, log': seq<Event>, c: Cursor, p: Event -> bool, x: seq<Event>, x': seq<Event>)
    requires log <= log' && x <= x' && Ordered(x) && forall e :: e in x ==> e in Rest(log, c, p)
    requires x' <= Rest(log', c, p)
    ensures x <= Rest(log, c, p)
  {
    RestGrows(log, log', c, p);
    PrefixRest(x', x);
    M.BeginsEarlier(x, x'[|x|..], Rest(log, c, p), Rest(log'[|log|..], c, p));
  }

  lemma ProperIsAsked(s: State, x: seq<Event>)
    requires Proper(s, x)
    ensures Ordered(x) && forall e :: e in x ==> e in Asked(s)
  {
    SelectMembers(s.server.log, Wants(s.cursor, s.p));
  }

  /** A later state of the same attempt. */
  ghost predicate GrownFrom(s: State, s': State) {
    s'.cursor == s.cursor && s'.p == s.p && s.server.log <= s'.server.log && s.stream <= s'.stream
  }

  lemma GapStays(s: State, s': State)
    requires OrderInv(s) && s.server.last.Floor < Ulid.STAMP_LIMIT && !(s.stream <= Asked(s)) && GrownFrom(s, s')
    ensures !(s'.stream <= Asked(s'))
  {
    ProperIsAsked(s, s.stream);
    if s'.stream <= Asked(s') { StaysOff(s.server.log, s'.server.log, s.cursor, s.p, s.stream, s'.stream); }
  }

  lemma ReceiveGrows(s: State)
    requires s.server.last >= 0.0 && s.phase.Connected? && |s.phase.wire| > 0
    ensures GrownFrom(s, Next(s, Receive))
  {
    match s.phase.wire[0] {
      case Envelope(e) => assert s.stream <= s.stream + [e];
      case Heartbeat =>
      case UnknownSentinel =>
    }
  }

  /** Only a drain takes deliveries back. */
  lemma StreamGrows(s: State, step: Step)
    requires Inv(s) && !s.phase.Draining? && (step.Server? ==> M.ValidStep(step.step))
    ensures GrownFrom(s, Next(s, step))
  {
    match step {
      case Server(inner) => M.StepLeaves(s.server, inner);
      case Send => if s.phase.Connected? { var _ := SendWires(s); }
      case Receive => if s.phase.Connected? && |s.phase.wire| > 0 { ReceiveGrows(s); }
      case Connect => if s.phase.Disconnected? && |s.server.unpublished| == 0 { assert GrownFrom(s, Next(s, Connect)); }
      case _ =>
    }
  }

  /** The first event received from behind a gap is not the next one asked for. */
  lemma FirstGap(s: State)
    requires Inv(s) && s.server.last.Floor < Ulid.STAMP_LIMIT && Gapless(s) && ReceivesPastGap(s, Receive)
    ensures !(Next(s, Receive).stream <= Asked(Next(s, Receive)))
  {
    NextReceived(s, s.phase.wire[0].event);
  }

  lemma StepGap(s: State, step: Step)
    requires GapInv(s) && OrderInv(Next(s, step)) && (step.Server? ==> M.ValidStep(step.step))
    ensures GapInv(Next(s, step))
  {
    if Next(s, step).server.last.Floor < Ulid.STAMP_LIMIT && !Gapless(Next(s, step)) {
      StepPassesGap(s, step);
      if Gapless(s) {
        FirstGap(s);
      } else {
        assert !s.phase.Draining?;
        StreamGrows(s, step);
        GapStays(s, Next(s, step));
      }
    }
  }

  lemma {:induction false} RunGap(s: State, steps: seq<Step>)
    requires GapInv(s) && ValidSteps(steps)
    ensures GapInv(Run(s, steps))
  {
    if |steps| > 0 {
      RunGap(s, steps[..|steps| - 1]);
      RunStaysOrderly(s, steps);
      StepGap(Run(s, steps[..|steps| - 1]), steps[|steps| - 1]);
    }
  }

  /** What the invariants say of the deliveries. */
  lemma InvDelivers(s: State)
    requires GapInv(s) && s.server.last.Floor < Ulid.STAMP_LIMIT
    ensures s.stream <= Asked(s) <==> Gapless(s)
    ensures AllPrefixes(s.abandoned, Asked(s))
    ensures s.abandoned == [] ==> Delivered(s) == s.stream
    ensures s.phase.Disconnected? || s.phase.Connected? ==> AllPrefixes(s.abandoned, s.stream)
  {
    assert [] + s.stream == s.stream;
  }

  /**
   * Exactly-once across reconnects.  For any interleaving of server steps, heartbeats, drain pages,
   * transient failures and reconnects, from any cursor but "latest" that names nothing the server
   * has yet to mint: the current attempt has delivered a prefix of what was asked for, in order, no
   * gap, no repeat, exactly when the client never received an event from behind a gap in a server
   * window.  Attempts the drain gave up were prefixes whatever happens, and once the drain is over
   * they are repeated inside the one that went on.
   */
  lemma CloudSubscriber(server: M.State, cursor: Cursor, p: Event -> bool, drain: bool, steps: seq<Step>)
    requires M.Inv(server) && M.Below(cursor, server) && ValidSteps(steps)
    requires Run(Start(server, cursor, p, drain), steps).server.last.Floor < Ulid.STAMP_LIMIT
    ensures var s := Run(Start(server, cursor, p, drain), steps);
            && (s.stream <= Asked(s) <==> Never(ReceivesPastGap, Start(server, cursor, p, drain), steps))
            && AllPrefixes(s.abandoned, Asked(s))
            && (s.abandoned == [] ==> Delivered(s) == s.stream)
            && (s.phase.Disconnected? || s.phase.Connected? ==> AllPrefixes(s.abandoned, s.stream))
  {
    StartInv(server, cursor, p, drain);
    RunGap(Start(server, cursor, p, drain), steps);
    GaplessExactly(Start(server, cursor, p, drain), steps);
    InvDelivers(Run(Start(server, cursor, p, drain), steps));
  }

  lemma StepAbandonsNothing(s: State, step: Step)
    requires s.server.last >= 0.0 && (s.phase.Draining? ==> step != DrainFails(true))
    ensures Next(s, step).abandoned == s.abandoned
    ensures Next(s, step).phase.Draining? ==> s.phase.Draining?
  {
  }

  /** Only a transient failure of a drain page ever makes an attempt start over. */
  lemma {:induction false} NothingAbandoned(s: State, steps: seq<Step>)
    requires s.server.last >= 0.0 && s.abandoned == []
    requires s.phase.Draining? ==> DrainFails(true) !in steps
    ensures Run(s, steps).abandoned == []
    ensures Run(s, steps).phase.Draining? ==> s.phase.Draining?
  {
    if |steps| > 0 {
      NothingAbandoned(s, steps[..|steps| - 1]);
      assert steps[|steps| - 1] in steps;
      StepAbandonsNothing(Run(s, steps[..|steps| - 1]), steps[|steps| - 1]);
    }
  }

  /** Nothing on the wire, in the window, or half published. */
  predicate CaughtUp(s: State) {
    && s.phase.Connected? && s.phase.sub < |s.server.subs| && Envelopes(s.phase.wire) == []
    && var sub := s.server.subs[s.phase.sub];
       sub.replay == [] && Select(sub.queue, M.Live(sub)) == [] && M.InFlight(s.server, sub) == []
  }

  /** The current connection's window has dropped nothing that was wanted. */
  predicate WindowHeld(s: State) {
    s.phase.Connected? && s.phase.sub < |s.server.subs| ==> s.server.subs[s.phase.sub].lost == 0
  }

  lemma CaughtUpIs(s: State)
    requires GapInv(s) && s.server.last.Floor < Ulid.STAMP_LIMIT && CaughtUp(s)
    ensures s.stream == Asked(s) <==> Gapless(s) && WindowHeld(s)
  {
    if Gapless(s) {
      var sub := s.server.subs[s.phase.sub];
      ConnectionAsks(s);
      M.SubscriberOwed(s.server, s.phase.sub);
      assert M.Held(sub) + M.InFlight(s.server, sub) == sub.got;
      assert s.stream + [] == s.stream;
    }
  }

  /**
   * Nothing is left out: a connection that has caught up has delivered every event asked for,
   * those appended between the drain's last empty page and the connection included, exactly when
   * the client never received anything from behind a gap and its current window dropped nothing.
   */
  lemma CaughtUpHasEverything(server: M.State, cursor: Cursor, p: Event -> bool, drain: bool, steps: seq<Step>)
    requires M.Inv(server) && M.Below(cursor, server) && ValidSteps(steps)
    requires var s := Run(Start(server, cursor, p, drain), steps);
             s.server.last.Floor < Ulid.STAMP_LIMIT && CaughtUp(s)
    ensures var s0 := Start(server, cursor, p, drain);
            var s := Run(s0, steps);
            && (s.stream == Asked(s) <==> Never(ReceivesPastGap, s0, steps) && WindowHeld(s))
            && (!drain || DrainFails(true) !in steps ==> Delivered(s) == s.stream)
  {
    StartInv(server, cursor, p, drain);
    RunGap(Start(server, cursor, p, drain), steps);
    GaplessExactly(Start(server, cursor, p, drain), steps);
    CaughtUpIs(Run(Start(server, cursor, p, drain), steps));
    if !drain || DrainFails(true) !in steps {
      NothingAbandoned(Start(server, cursor, p, drain), steps);
      InvDelivers(Run(Start(server, cursor, p, drain), steps));
    }
  }

  // ----- abandoned attempts -------------------------------------------------------

  /** `x[k..]` is the page that a read of `log` gives after `x[..k]`. */
  ghost predicate IsPage(log: seq<Event>, cursor: Cursor, p: Event -> bool, x: seq<Event>, k: nat)
    requires k <= |x|
  {
    x[k..] == QueryAfter(log, Position(cursor, x[..k]), p, PAGE_LIMIT)
  }

  /** Pages read one after the other, each from where the one before ended and off the log as it then was. */
  ghost predicate InPages(log: seq<Event>, cursor: Cursor, p: Event -> bool, x: seq<Event>)
    decreases |x|
  {
    x == [] ||
      exists n: nat, k: nat | n <= |log| && k < |x| ::
        IsPage(log[..n], cursor, p, x, k) && InPages(log[..n], cursor, p, x[..k])
  }

  lemma PagesStay(log: seq<Event>, log': seq<Event>, cursor: Cursor, p: Event -> bool, x: seq<Event>)
    requires log <= log' && InPages(log, cursor, p, x)
    ensures InPages(log', cursor, p, x)
  {
    if x != [] {
      var n: nat, k: nat :| n <= |log| && k < |x|
        && IsPage(log[..n], cursor, p, x, k) && InPages(log[..n], cursor, p, x[..k]);
      assert log'[..n] == log[..n];
    }
  }

  lemma OnePageMore(log: seq<Event>, cursor: Cursor, p: Event -> bool, x: seq<Event>, page: seq<Event>)
    requires InPages(log, cursor, p, x) && page == QueryAfter(log, Position(cursor, x), p, PAGE_LIMIT)
    ensures InPages(log, cursor, p, x + page)
  {
    if page == [] {
      assert x + page == x;
    } else {
      var all := x + page;
      assert log[..|log|] == log && all[..|x|] == x && all[|x|..] == page;
      assert IsPage(log[..|log|], cursor, p, all, |x|);
    }
  }

  ghost predicate Paging(s: State) {
    && (s.phase.Draining? ==> InPages(s.server.log, s.cursor, s.p, s.stream + s.phase.page))
    && forall i :: 0 <= i < |s.abandoned| ==> InPages(s.server.log, s.cursor, s.p, s.abandoned[i])
  }

  /** The steps other than a drain's own leave its pages alone. */
  lemma PagingStays(s: State, s': State)
    requires Paging(s) && s.server.log <= s'.server.log && s'.cursor == s.cursor && s'.p == s.p
    requires s'.abandoned == s.abandoned
    requires s'.phase.Draining? ==> s.phase.Draining? && s'.stream + s'.phase.page == s.stream + s.phase.page
    ensures Paging(s')
  {
    if s'.phase.Draining? { PagesStay(s.server.log, s'.server.log, s.cursor, s.p, s.stream + s.phase.page); }
    forall i | 0 <= i < |s.abandoned| ensures InPages(s'.server.log, s.cursor, s.p, s.abandoned[i]) {
      PagesStay(s.server.log, s'.server.log, s.cursor, s.p, s.abandoned[i]);
    }
  }

  lemma FetchPages(s: State)
    requires Inv(s) && Paging(s) && s.phase.Draining? && |s.phase.page| == 0
    ensures Paging(Next(s, FetchPage))
  {
    assert s.stream + [] == s.stream;
    OnePageMore(s.server.log, s.cursor, s.p, s.stream, QueryAfter(s.server.log, s.phase.at, s.p, PAGE_LIMIT));
  }

  lemma DeliverPages(s: State)
    requires s.server.last >= 0.0 && Paging(s) && s.phase.Draining? && |s.phase.page| > 0
    ensures Paging(Next(s, DeliverPage))
  {
    assert s.stream + [s.phase.page[0]] + s.phase.page[1..] == s.stream + s.phase.page;
    PagingStays(s, Next(s, DeliverPage));
  }

  lemma DrainFailPages(s: State, transient: bool)
    requires Inv(s) && Paging(s) && s.phase.Draining? && |s.phase.page| == 0
    ensures Paging(Next(s, DrainFails(transient)))
  {
    assert s.stream + [] == s.stream;
  }

  lemma StepPages(s: State, step: Step)
    requires Inv(s) && Paging(s) && (step.Server? ==> M.ValidStep(step.step))
    ensures Paging(Next(s, step))
  {
    match step {
      case FetchPage => if s.phase.Draining? && |s.phase.page| == 0 { FetchPages(s); }
      case DeliverPage => if s.phase.Draining? && |s.phase.page| > 0 { DeliverPages(s); }
      case DrainFails(transient) => if s.phase.Draining? && |s.phase.page| == 0 { DrainFailPages(s, transient); }
      case Server(inner) =>
        M.StepLeaves(s.server, inner);
        PagingStays(s, Next(s, step));
      case _ =>
        if !s.phase.Draining? {
          StreamGrows(s, step);
          PagingStays(s, Next(s, step));
        }
    }
  }

  lemma {:induction false} RunPages(s: State, steps: seq<Step>)
    requires Inv(s) && Paging(s) && ValidSteps(steps)
    ensures Paging(Run(s, steps))
  {
    if |steps| > 0 {
      RunPages(s, steps[..|steps| - 1]);
      RunKeeps(s, steps[..|steps| - 1]);
      StepPages(Run(s, steps[..|steps| - 1]), steps[|steps| - 1]);
    }
  }

  /** Every attempt the drain gives up was made of whole pages, whatever the server appended meanwhile. */
  lemma AbandonedInPages(server: M.State, cursor: Cursor, p: Event -> bool, drain: bool, steps: seq<Step>)
    requires M.Inv(server) && M.Below(cursor, server) && ValidSteps(steps)
    ensures var s := Run(Start(server, cursor, p, drain), steps);
            forall x :: x in s.abandoned ==> InPages(s.server.log, cursor, p, x)
  {
    StartInv(server, cursor, p, drain);
    RunPages(Start(server, cursor, p, drain), steps);
    RunKeepsAsking(Start(server, cursor, p, drain), steps);
  }

  lemma StepKeepsAsking(s: State, step: Step)
    requires s.server.last >= 0.0
    ensures Next(s, step).cursor == s.cursor && Next(s, step).p == s.p
  {
  }

  lemma {:induction false} RunKeepsAsking(s: State, steps: seq<Step>)
    requires s.server.last >= 0.0
    ensures Run(s, steps).cursor == s.cursor && Run(s, steps).p == s.p
  {
    if |steps| > 0 {
      RunKeepsAsking(s, steps[..|steps| - 1]);
      StepKeepsAsking(Run(s, steps[..|steps| - 1]), steps[|steps| - 1]);
    }
  }

  // ----- exactly once -------------------------------------------------------------

  /** A transient drain failure that takes effect after this attempt has delivered something. */
  predicate FailsLate(s: State, step: Step) {
    step == DrainFails(true) && s.phase.Draining? && |s.phase.page| == 0 && s.stream != []
  }

  lemma StepAbandons(s: State, step: Step)
    requires s.server.last >= 0.0
    ensures AllEmpty(Next(s, step).abandoned) <==> AllEmpty(s.abandoned) && !FailsLate(s, step)
  {
    var before, after := s.abandoned, Next(s, step).abandoned;
    if after != before {
      assert after == before + [s.stream];
      assert after[|before|] == s.stream;
      if AllEmpty(after) {
        forall i | 0 <= i < |before| ensures before[i] == [] { assert after[i] == before[i]; }
      }
    }
  }

  lemma {:induction false} RunAbandons(s: State, steps: seq<Step>)
    requires s.server.last >= 0.0 && AllEmpty(s.abandoned)
    ensures AllEmpty(Run(s, steps).abandoned) <==> Never(FailsLate, s, steps)
  {
    if |steps| > 0 {
      RunAbandons(s, steps[..|steps| - 1]);
      StepAbandons(Run(s, steps[..|steps| - 1]), steps[|steps| - 1]);
    }
  }

  /** A stream that some abandoned attempt began as well is delivered with repeats. */
  lemma AbandonedRepeats(parts: seq<seq<Event>>, stream: seq<Event>, k: nat)
    requires k < |parts| && parts[k] != [] && parts[k] <= stream
    ensures !Ordered(Flatten(parts) + stream)
  {
    var e := stream[0];
    FlattenHas(parts, k, e);
    var i :| 0 <= i < |Flatten(parts)| && Flatten(parts)[i] == e;
    assert (Flatten(parts) + stream)[i] == e == (Flatten(parts) + stream)[|Flatten(parts)|];
  }

  lemma {:induction false} FlattenHas(parts: seq<seq<Event>>, k: nat, e: Event)
    requires k < |parts| && e in parts[k]
    ensures e in Flatten(parts)
  {
    if k < |parts| - 1 { FlattenHas(parts[..|parts| - 1], k, e); }
  }

  lemma DeliveredOnce(s: State)
    requires GapInv(s) && s.server.last.Floor < Ulid.STAMP_LIMIT && CaughtUp(s)
    ensures Delivered(s) == Asked(s) <==> s.stream == Asked(s) && AllEmpty(s.abandoned)
  {
    FlattenEmpties(s.abandoned);
    if AllEmpty(s.abandoned) {
      assert [] + s.stream == s.stream;
    } else {
      var k :| 0 <= k < |s.abandoned| && s.abandoned[k] != [];
      AbandonedRepeats(s.abandoned, s.stream, k);
      SelectOrdered(s.server.log, Wants(s.cursor, s.p));
    }
  }

  /**
   * A client that has caught up has been given each event it asked for exactly once if and only
   * if every drain page that failed did so before its attempt had delivered anything, it never
   * received anything from behind a gap, and its current window dropped nothing.
   */
  lemma ExactlyOnceExactly(server: M.State, cursor: Cursor, p: Event -> bool, drain: bool, steps: seq<Step>)
    requires M.Inv(server) && M.Below(cursor, server) && ValidSteps(steps)
    requires var s := Run(Start(server, cursor, p, drain), steps);
             s.server.last.Floor < Ulid.STAMP_LIMIT && CaughtUp(s)
    ensures var s0 := Start(server, cursor, p, drain);
            var s := Run(s0, steps);
            (Delivered(s) == Asked(s) <==>
               Never(FailsLate, s0, steps) && Never(ReceivesPastGap, s0, steps) && WindowHeld(s))
  {
    CaughtUpHasEverything(server, cursor, p, drain, steps);
    StartInv(server, cursor, p, drain);
    RunGap(Start(server, cursor, p, drain), steps);
    RunAbandons(Start(server, cursor, p, drain), steps);
    DeliveredOnce(Run(Start(server, cursor, p, drain), steps));
  }

  // ----- runs that show it --------------------------------------------------------

  lemma RunMore(s: State, steps: seq<Step>, step: Step)
    requires s.server.last >= 0.0
    ensures Run(s, steps + [step]) == Next(Run(s, steps), step)
  {
    assert (steps + [step])[..|steps|] == steps;
  }

  /** The state once the events of `es` have been delivered too. */
  function WithDelivered(s: State, es: seq<Event>): State {
    s.(stream := s.stream + es, lastDelivered := if |es| > 0 then At(es[|es| - 1].id) else s.lastDelivered)
  }

  /** A run goes on with steps of the drain that all go well. */
  ghost predicate Drains(before: seq<Step>, steps: seq<Step>) {
    before <= steps && forall i :: |before| <= i < |steps| ==> steps[i].FetchPage? || steps[i].DeliverPage?
  }

  lemma DeliveredMore(s: State, a: seq<Event>, b: seq<Event>)
    ensures WithDelivered(WithDelivered(s, a), b) == WithDelivered(s, a + b)
  {
    Associates(s.stream, a, b);
    if |b| == 0 { assert a + b == a; }
  }

  /** Delivering the head of a page and then the rest delivers the page. */
  lemma DeliverHead(s: State, at: Cursor, page: seq<Event>)
    requires s.server.last >= 0.0 && s.phase == Draining(at, page) && |page| > 0
    ensures Next(s, DeliverPage).phase == Draining(at, page[1..])
    ensures WithDelivered(Next(s, DeliverPage), page[1..]).(phase := Draining(at, [])) ==
            WithDelivered(s, page).(phase := Draining(at, []))
  {
    assert Next(s, DeliverPage) == WithDelivered(s, [page[0]]).(phase := Draining(at, page[1..]));
    DeliveredMore(s, [page[0]], page[1..]);
    assert [page[0]] + page[1..] == page;
  }

  /** A fetched page is delivered. */
  lemma {:induction false} PageRuns(s0: State, before: seq<Step>, s: State, at: Cursor, page: seq<Event>)
    returns (steps: seq<Step>)
    requires s0.server.last >= 0.0 && s == Run(s0, before) && s.phase == Draining(at, page)
    ensures Drains(before, steps)
    ensures Run(s0, steps) == WithDelivered(s, page).(phase := Draining(at, []))
    decreases |page|
  {
    if |page| == 0 {
      steps := before;
      assert s.stream + page == s.stream;
    } else {
      RunMore(s0, before, DeliverPage);
      DeliverHead(s, at, page);
      steps := PageRuns(s0, before + [DeliverPage], Next(s, DeliverPage), at, page[1..]);
    }
  }

  /** One page of the drain, fetched and delivered. */
  lemma OnePage(s0: State, before: seq<Step>, s: State) returns (steps: seq<Step>)
    requires s0.server.last >= 0.0 && s == Run(s0, before) && s.phase.Draining? && |s.phase.page| == 0
    requires QueryAfter(s.server.log, s.phase.at, s.p, PAGE_LIMIT) != []
    ensures Drains(before, steps)
    ensures var page := QueryAfter(s.server.log, s.phase.at, s.p, PAGE_LIMIT);
            Run(s0, steps) == WithDelivered(s, page).(phase := Draining(At(page[|page| - 1].id), []))
  {
    var fetched := Next(s, FetchPage);
    RunMore(s0, before, FetchPage);
    steps := PageRuns(s0, before + [FetchPage], fetched, fetched.phase.at, fetched.phase.page);
  }

  lemma AfterPage(s: State, page: seq<Event>, next: Cursor)
    requires s.phase.Draining?
    requires Rest(s.server.log, s.phase.at, s.p) == page + Rest(s.server.log, next, s.p)
    ensures var s' := WithDelivered(s, page).(phase := Draining(next, []));
            WithDelivered(s', Rest(s.server.log, next, s.p)).(phase := Disconnected) ==
              WithDelivered(s, Rest(s.server.log, s.phase.at, s.p)).(phase := Disconnected)
  {
    DeliveredMore(s, page, Rest(s.server.log, next, s.p));
  }

  lemma DrainEnds(s0: State, before: seq<Step>, s: State)
    requires s0.server.last >= 0.0 && s == Run(s0, before) && s.phase.Draining? && |s.phase.page| == 0
    requires QueryAfter(s.server.log, s.phase.at, s.p, PAGE_LIMIT) == []
    ensures Run(s0, before + [FetchPage]) ==
            WithDelivered(s, Rest(s.server.log, s.phase.at, s.p)).(phase := Disconnected)
  {
    NoPage(s.server.log, s.phase.at, s.p, PAGE_LIMIT);
    RunMore(s0, before, FetchPage);
    assert s.stream + [] == s.stream;
  }

  /** Undisturbed, the drain delivers everything that is left and ends, whatever the page size. */
  lemma {:induction false} DrainRuns(s0: State, before: seq<Step>, s: State) returns (steps: seq<Step>)
    requires s0.server.last >= 0.0 && s == Run(s0, before)
    requires s.phase.Draining? && |s.phase.page| == 0 && Ordered(s.server.log)
    ensures Drains(before, steps)
    ensures Run(s0, steps) == WithDelivered(s, Rest(s.server.log, s.phase.at, s.p)).(phase := Disconnected)
    decreases |Rest(s.server.log, if s.phase.Draining? then s.phase.at else Latest, s.p)|
  {
    var page := QueryAfter(s.server.log, s.phase.at, s.p, PAGE_LIMIT);
    if |page| == 0 {
      steps := before + [FetchPage];
      DrainEnds(s0, before, s);
    } else {
      var next := At(page[|page| - 1].id);
      PageStep(s.server.log, s.phase.at, s.p, PAGE_LIMIT);
      var once := OnePage(s0, before, s);
      steps := DrainRuns(s0, once, WithDelivered(s, page).(phase := Draining(next, [])));
      AfterPage(s, page, next);
    }
  }

  /** A first page is delivered, the next one fails, and the drain starts over. */
  lemma FirstPageThenFail(s0: State) returns (steps: seq<Step>, page: seq<Event>)
    requires s0.server.last >= 0.0 && s0.phase == Draining(s0.cursor, []) && s0.stream == [] && s0.abandoned == []
    requires Rest(s0.server.log, s0.cursor, s0.p) != []
    ensures ValidSteps(steps) && |page| > 0
    ensures Run(s0, steps) == s0.(lastDelivered := At(page[|page| - 1].id), abandoned := [page])
  {
    page := QueryAfter(s0.server.log, s0.cursor, s0.p, PAGE_LIMIT);
    if |page| == 0 { NoPage(s0.server.log, s0.cursor, s0.p, PAGE_LIMIT); }
    var once := OnePage(s0, [], s0);
    steps := once + [DrainFails(true)];
    RunMore(s0, once, DrainFails(true));
    assert s0.stream + page == page;
    assert s0.abandoned + [page] == [page];
  }

  /**
   * From every server with a wanted event there is a run in which a drain page fails and a client
   * that has caught up, with nothing lost, has been given a page of events twice.
   */
  lemma DrainMayRepeat(server: M.State, cursor: Cursor, p: Event -> bool) returns (steps: seq<Step>, page: seq<Event>)
    requires M.Inv(server) && |server.unpublished| == 0 && server.last.Floor < Ulid.STAMP_LIMIT
    requires M.Below(cursor, server) && Rest(server.log, cursor, p) != []
    ensures ValidSteps(steps) && |page| > 0
    ensures var s := Run(Start(server, cursor, p, true), steps);
            && CaughtUp(s) && Gapless(s) && s.server.log == server.log
            && Delivered(s) == page + Asked(s)
  {
    var s0 := Start(server, cursor, p, true);
    var failing, first := FirstPageThenFail(s0);
    page := first;
    var drained := DrainRuns(s0, failing, Run(s0, failing));
    var s := Run(s0, drained);
    steps := drained + [Connect];
    RunMore(s0, drained, Connect);
    assert [] + Rest(server.log, cursor, p) == Rest(server.log, cursor, p);
    OnePart(page);
    ConnectsCaughtUp(s);
  }

  lemma OnePart(part: seq<Event>)
    ensures Flatten([part]) == part
  {
    assert [part][..0] == [];
  }

  /** A connection made when everything was delivered has nothing to hand over. */
  lemma ConnectsCaughtUp(s: State)
    requires M.Inv(s.server) && s.server.last.Floor < Ulid.STAMP_LIMIT && |s.server.unpublished| == 0
    requires s.phase.Disconnected? && !s.gapped && s.stream == Asked(s) != []
    requires s.lastDelivered == At(s.stream[|s.stream| - 1].id)
    ensures var s' := Next(s, Connect);
            && CaughtUp(s') && Gapless(s') && s'.stream == s.stream && s'.abandoned == s.abandoned
            && s'.server.log == s.server.log
  {
    RestAt(s.server.log, s.cursor, s.p, s.stream);
  }

  /** Five steps of a "latest" subscriber: join, one append behind its back, a lost connection, join again. */
  function LatestSteps(input: EventInput, tick: M.Tick): seq<Step> {
    [Connect, Server(M.BeginAppend([input], [tick])), Server(M.Publish), ConnectionFails(true), Connect]
  }

  lemma FiveSteps(s: State, a: Step, b: Step, c: Step, d: Step, e: Step)
    requires s.server.last >= 0.0
    ensures Run(s, [a, b, c, d, e]) == Next(Next(Next(Next(Next(s, a), b), c), d), e)
  {
    assert [] + [a] == [a] && [a] + [b] == [a, b] && [a, b] + [c] == [a, b, c];
    assert [a, b, c] + [d] == [a, b, c, d] && [a, b, c, d] + [e] == [a, b, c, d, e];
    RunMore(s, [], a);
    RunMore(s, [a], b);
    RunMore(s, [a, b], c);
    RunMore(s, [a, b, c], d);
    RunMore(s, [a, b, c, d], e);
  }

  /** The first three of them. */
  lemma BehindItsBack(server: M.State, p: Event -> bool, input: EventInput, tick: M.Tick)
    requires server.last >= 0.0 && |server.unpublished| == 0
    ensures var s0 := Start(server, Latest, p, false);
            var s := Next(Next(Next(s0, Connect), Server(M.BeginAppend([input], [tick]))), Server(M.Publish));
            && s.server.log == server.log + [M.OneEvent(server, input, tick)] && s.server.unpublished == []
            && s.server.last >= 0.0 && |s.server.subs| == |server.subs| + 1
            && s == s0.(server := s.server, phase := Connected(|server.subs|, [], []))
            && s.server.subs[|server.subs|].lost == 0
  {
    M.OnePublished(Next(Start(server, Latest, p, false), Connect).server, input, tick);
  }

  /** And the state after all five. */
  lemma JoinsAgain(server: M.State, p: Event -> bool, input: EventInput, tick: M.Tick)
    requires server.last >= 0.0 && |server.unpublished| == 0
    ensures var s := Run(Start(server, Latest, p, false), LatestSteps(input, tick));
            && s.server.log == server.log + [M.OneEvent(server, input, tick)]
            && s.stream == [] && s.abandoned == [] && CaughtUp(s) && Gapless(s)
            && s.server.subs[s.phase.sub].cursor.Latest? && s.server.subs[s.phase.sub].p == p
            && s.server.subs[s.phase.sub].snapshotMax == M.SnapshotMax(s.server.log)
  {
    var s0, steps := Start(server, Latest, p, false), LatestSteps(input, tick);
    FiveSteps(s0, steps[0], steps[1], steps[2], steps[3], steps[4]);
    BehindItsBack(server, p, input, tick);
  }

  /**
   * From every server, a "latest" subscriber that is connected when a wanted event is appended and
   * loses the connection before receiving it has caught up without that event, which is not among
   * what its new connection owes it, whatever follows.
   */
  lemma LatestMayMiss(server: M.State, p: Event -> bool, input: EventInput, tick: M.Tick, later: seq<Event>)
    requires server.last >= 0.0 && |server.unpublished| == 0 && |tick.draw.rand| == 10
    requires Ordered(server.log + [M.OneEvent(server, input, tick)] + later)
    ensures ValidSteps(LatestSteps(input, tick))
    ensures var e := M.OneEvent(server, input, tick);
            var s := Run(Start(server, Latest, p, false), LatestSteps(input, tick));
            && s.server.log == server.log + [e] && s.stream == [] && s.abandoned == [] && CaughtUp(s) && Gapless(s)
            && e !in Select(s.server.log + later, M.WantsOf(s.server.subs[s.phase.sub]))
  {
    var e := M.OneEvent(server, input, tick);
    JoinsAgain(server, p, input, tick);
    var s := Run(Start(server, Latest, p, false), LatestSteps(input, tick));
    assert e == s.server.log[|server.log|];
    M.LatestDrops(s.server.log, later, s.server.subs[s.phase.sub], e);
  }

  /** `n` publications of the server in a row. */
  function Publishing(n: nat): seq<Step> {
    seq(n, _ => Server(M.Publish))
  }

  lemma {:induction false} ServerPublishes(s: State, n: nat)
    requires s.server.last >= 0.0
    ensures Run(s, Publishing(n)) == s.(server := M.Run(s.server, M.Publications(n)))
  {
    if n > 0 {
      ServerPublishes(s, n - 1);
      assert Publishing(n)[..n - 1] == Publishing(n - 1) && M.Publications(n)[..n - 1] == M.Publications(n - 1);
    }
  }

  lemma {:induction false} RunConcat(s: State, a: seq<Step>, b: seq<Step>)
    requires s.server.last >= 0.0
    ensures Run(s, a + b) == Run(Run(s, a), b)
  {
    if |b| == 0 {
      assert a + b == a;
    } else {
      assert (a + b)[..|a + b| - 1] == a + b[..|b| - 1];
      RunConcat(s, a, b[..|b| - 1]);
    }
  }

  lemma TwoSteps(s: State, a: Step, b: Step)
    requires s.server.last >= 0.0
    ensures Run(s, [a, b]) == Next(Next(s, a), b)
  {
    assert [] + [a] == [a] && [a] + [b] == [a, b];
    RunMore(s, [], a);
    RunMore(s, [a], b);
  }

  /** Two steps on a connection that stalls while a batch is published on the server, and what is left to do. */
  function StalledSteps(inputs: seq<EventInput>, ticks: seq<M.Tick>, last: Step, end: Step): seq<Step> {
    [Connect, Server(M.BeginAppend(inputs, ticks))] + Publishing(|inputs|) + [last, end]
  }

  /** The state before the last two of them. */
  function Stalled(server: M.State, cursor: Cursor, inputs: seq<EventInput>, ticks: seq<M.Tick>): State
    requires server.last >= 0.0
  {
    var begun := Next(Next(Start(server, cursor, M.Anything(), false), Connect), Server(M.BeginAppend(inputs, ticks)));
    Run(begun, Publishing(|inputs|))
  }

  lemma StalledRuns(server: M.State, cursor: Cursor, inputs: seq<EventInput>, ticks: seq<M.Tick>, last: Step, end: Step)
    requires server.last >= 0.0
    ensures Run(Start(server, cursor, M.Anything(), false), StalledSteps(inputs, ticks, last, end)) ==
            Next(Next(Stalled(server, cursor, inputs, ticks), last), end)
  {
    var s0, a, b := Start(server, cursor, M.Anything(), false), Connect, Server(M.BeginAppend(inputs, ticks));
    TwoSteps(s0, a, b);
    RunConcat(s0, [a, b], Publishing(|inputs|));
    RunConcat(s0, [a, b] + Publishing(|inputs|), [last, end]);
    TwoSteps(Stalled(server, cursor, inputs, ticks), last, end);
  }

  lemma StalledStepsValid(inputs: seq<EventInput>, ticks: seq<M.Tick>, last: Step, end: Step)
    requires M.ValidTicks(ticks) && !last.Server? && !end.Server?
    ensures ValidSteps(StalledSteps(inputs, ticks, last, end))
  {
  }

  lemma BegunIs(server: M.State, cursor: Cursor, inputs: seq<EventInput>, ticks: seq<M.Tick>)
    requires server.last >= 0.0 && |server.unpublished| == 0
    ensures var s0 := Start(server, cursor, M.Anything(), false);
            Next(Next(s0, Connect), Server(M.BeginAppend(inputs, ticks))) ==
              s0.(server := M.Next(M.Join(server, cursor, M.Anything()), M.BeginAppend(inputs, ticks)),
                  phase := Connected(|server.subs|, [], []))
  {
  }

  /** The window has lost the batch's first event, and nothing has been sent. */
  lemma StalledIs(server: M.State, cursor: Cursor, inputs: seq<EventInput>, ticks: seq<M.Tick>)
    requires M.Overflowing(server, cursor, inputs, ticks)
    ensures var p, (es, stamp) := M.Anything(), M.Mint(server.last, inputs, ticks);
            var s := Stalled(server, cursor, inputs, ticks);
            && s == Start(server, cursor, p, false).(server := s.server, phase := Connected(|server.subs|, [], []))
            && s.server.log == server.log + es && s.server.last == stamp && s.server.unpublished == []
            && |s.server.subs| == |server.subs| + 1
            && s.server.subs[|server.subs|] == M.Backlogged(M.NewSubscriber(server, cursor, p), es, |es|)
  {
    var begun := Next(Next(Start(server, cursor, M.Anything(), false), Connect), Server(M.BeginAppend(inputs, ticks)));
    BegunIs(server, cursor, inputs, ticks);
    ServerPublishes(begun, |inputs|);
    M.IdleLoses(server, cursor, inputs, ticks);
  }

  /** The head of the window is sent and received. */
  lemma SendThenReceive(s: State, k: nat, e: Event)
    requires s.server.last >= 0.0 && s.phase == Connected(k, [], []) && k < |s.server.subs| && s.stream == []
    requires var sub := s.server.subs[k];
             sub.replay == [] && sub.got == [] && |sub.queue| > 0 && sub.queue[0] == e && M.Live(sub)(e)
    ensures var t := Next(Next(s, Send), Receive);
            t.stream == [e] && t.server.log == s.server.log && t.cursor == s.cursor && t.p == s.p
  {
    assert M.Pull(s.server.subs[k]).got == [e];
    assert Next(s, Send).phase == Connected(k, [Envelope(e)], []);
  }

  /**
   * From every server there is a run that passes a gap: a batch of 1025 events overflows the
   * window of a connection that has yet to send any, and the second of them is delivered first.
   */
  lemma MayPassGap(server: M.State, cursor: Cursor, inputs: seq<EventInput>, ticks: seq<M.Tick>)
    requires M.Overflowing(server, cursor, inputs, ticks)
    ensures ValidSteps(StalledSteps(inputs, ticks, Send, Receive))
    ensures var es := M.Mint(server.last, inputs, ticks).0;
            var s := Run(Start(server, cursor, M.Anything(), false), StalledSteps(inputs, ticks, Send, Receive));
            s.stream == [es[1]] && Asked(s) == es && es[0].id < es[1].id
  {
    var es, k := M.Mint(server.last, inputs, ticks).0, |server.subs|;
    var s := Stalled(server, cursor, inputs, ticks);
    StalledStepsValid(inputs, ticks, Send, Receive);
    StalledRuns(server, cursor, inputs, ticks, Send, Receive);
    StalledIs(server, cursor, inputs, ticks);
    M.MintedIsAsked(server, cursor, inputs, ticks);
    M.SecondIsNext(server, cursor, inputs, ticks);
    SendThenReceive(s, k, es[1]);
  }

  /** A connection that has delivered nothing fails, and the next one starts where it did. */
  lemma FailThenConnect(s: State, k: nat)
    requires s.server.last >= 0.0 && s.phase == Connected(k, [], []) && s.stream == [] && s.lastDelivered.Latest?
    requires !s.gapped && |s.server.unpublished| == 0
    ensures var t := Next(Next(s, ConnectionFails(true)), Connect);
            && t == s.(server := M.Join(s.server, s.cursor, s.p), phase := Connected(|s.server.subs|, [], []))
            && Gapless(t) && WindowHeld(t)
  {
  }

  /** If that connection fails instead, its overflow does no harm: the next one owes all of the batch. */
  lemma OverflowMayBeHarmless(server: M.State, cursor: Cursor, inputs: seq<EventInput>, ticks: seq<M.Tick>)
    requires M.Overflowing(server, cursor, inputs, ticks)
    ensures ValidSteps(StalledSteps(inputs, ticks, ConnectionFails(true), Connect))
    ensures var steps := StalledSteps(inputs, ticks, ConnectionFails(true), Connect);
            var s := Run(Start(server, cursor, M.Anything(), false), steps);
            && s.stream == [] && Gapless(s) && WindowHeld(s)
            && s.phase.Connected? && s.phase.sub < |s.server.subs|
            && s.server.subs[s.phase.sub].replay == Asked(s) == M.Mint(server.last, inputs, ticks).0
  {
    var s := Stalled(server, cursor, inputs, ticks);
    StalledStepsValid(inputs, ticks, ConnectionFails(true), Connect);
    StalledRuns(server, cursor, inputs, ticks, ConnectionFails(true), Connect);
    StalledIs(server, cursor, inputs, ticks);
    M.MintedIsAsked(server, cursor, inputs, ticks);
    FailThenConnect(s, |server.subs|);
    if cursor.Earliest? { SelectAgree(s.server.log, M.Anything(), Wants(cursor, M.Anything())); }
  }

  // ----- the client always gets there ---------------------------------------------

  /** Steps that go well: nothing fails, nobody else does anything. */
  predicate GoesWell(step: Step) {
    step == Server(M.Publish) || step.FetchPage? || step.DeliverPage? || step.Connect? || step.Send? || step.Receive?
  }

  /** The log stays, and so does what is asked for and what was given up. */
  ghost predicate SameAsked(s: State, t: State) {
    && t.server.log == s.server.log && t.cursor == s.cursor && t.p == s.p
    && t.abandoned == s.abandoned && s.stream <= t.stream
  }

  function Sends(n: nat): seq<Step> {
    seq(n, _ => Send)
  }

  function Receives(n: nat): seq<Step> {
    seq(n, _ => Receive)
  }

  /** Nothing but the wire and the server, and on the wire only more events. */
  ghost predicate MoreEvents(s: State, t: State) {
    && s.phase.Connected? && t.phase.Connected?
    && t == s.(server := t.server, phase := s.phase.(wire := t.phase.wire))
    && forall item :: item in t.phase.wire ==> item in s.phase.wire || item.Envelope?
  }

  lemma MoreAndMore(s: State, t: State, u: State)
    requires MoreEvents(s, t) && MoreEvents(t, u)
    ensures MoreEvents(s, u)
  {
  }

  lemma SendIs(s: State)
    requires s.server.last >= 0.0 && s.phase.Connected? && s.phase.sub < |s.server.subs|
    ensures var t := Next(s, Send);
            MoreEvents(s, t) && t.server == M.Next(s.server, M.Take(s.phase.sub))
  {
  }

  /** Sending is taking on the server's side, and puts nothing but events on the wire. */
  lemma {:induction false} SendsTake(s: State, n: nat)
    requires s.server.last >= 0.0 && s.phase.Connected? && s.phase.sub < |s.server.subs|
    ensures MoreEvents(s, Run(s, Sends(n)))
    ensures Run(s, Sends(n)).server == M.Run(s.server, M.Takes(s.phase.sub, n))
  {
    if n > 0 {
      SendsTake(s, n - 1);
      M.TakesEmpty(s.server, s.phase.sub, n - 1);
      SendsTakeMore(s, n, Run(s, Sends(n - 1)));
    } else {
      SendsNothing(s);
    }
  }

  lemma SendsNothing(s: State)
    requires s.server.last >= 0.0
    ensures Run(s, Sends(0)) == s
  {
  }

  lemma SendsTakeMore(s: State, n: nat, t: State)
    requires s.server.last >= 0.0 && s.phase.Connected? && n > 0 && t == Run(s, Sends(n - 1)) && MoreEvents(s, t)
    requires t.server == M.Run(s.server, M.Takes(s.phase.sub, n - 1)) && s.phase.sub < |t.server.subs|
    ensures MoreEvents(s, Run(s, Sends(n)))
    ensures Run(s, Sends(n)).server == M.Run(s.server, M.Takes(s.phase.sub, n))
  {
    SendsMore(s, n);
    OneSendMore(s, t);
    M.TakesMore(s.server, s.phase.sub, n);
  }

  lemma OneSendMore(s: State, t: State)
    requires t.server.last >= 0.0 && MoreEvents(s, t) && t.phase.sub < |t.server.subs|
    ensures MoreEvents(s, Next(t, Send)) && Next(t, Send).server == M.Next(t.server, M.Take(s.phase.sub))
  {
    SendIs(t);
    MoreAndMore(s, t, Next(t, Send));
  }

  lemma SendsMore(s: State, n: nat)
    requires s.server.last >= 0.0 && n > 0
    ensures Run(s, Sends(n)) == Next(Run(s, Sends(n - 1)), Send)
  {
    assert Sends(n)[..n - 1] == Sends(n - 1);
  }

  /** Only the wire, and what was delivered off it. */
  ghost predicate TakenOff(s: State, t: State, n: nat) {
    && s.phase.Connected? && n <= |s.phase.wire|
    && t == s.(phase := s.phase.(wire := s.phase.wire[n..]), stream := t.stream, lastDelivered := t.lastDelivered)
    && t.stream == s.stream + Envelopes(s.phase.wire[..n])
  }

  lemma OneTakenOff(s: State)
    requires s.server.last >= 0.0 && s.phase.Connected? && |s.phase.wire| > 0 && !s.phase.wire[0].UnknownSentinel?
    ensures TakenOff(s, Next(s, Receive), 1)
  {
    assert s.phase.wire[..1] == [s.phase.wire[0]];
    EnvelopesOne(s.phase.wire[0]);
    match s.phase.wire[0] {
      case Envelope(e) =>
      case Heartbeat => assert s.stream + [] == s.stream;
    }
  }

  lemma EnvelopesOne(item: Item)
    ensures Envelopes([item]) == if item.Envelope? then [item.event] else []
  {
    assert [] + [item] == [item];
    EnvelopesPush([], item);
  }

  lemma MoreTakenOff(s: State, t: State, u: State, n: nat)
    requires TakenOff(s, t, n) && TakenOff(t, u, 1)
    ensures TakenOff(s, u, n + 1)
  {
    var wire := s.phase.wire;
    assert wire[n..][..1] == [wire[n]] && wire[n..][1..] == wire[n + 1..];
    assert wire[..n + 1] == wire[..n] + [wire[n]];
    assert [] + [wire[n]] == [wire[n]];
    EnvelopesPush(wire[..n], wire[n]);
    EnvelopesPush([], wire[n]);
    Associates(s.stream, Envelopes(wire[..n]), Envelopes([wire[n]]));
  }

  /** As many receptions as items empty a wire that holds no unknown sentinel, and deliver what it holds. */
  lemma {:induction false} ReceivesEmpty(s: State, n: nat)
    requires s.server.last >= 0.0 && s.phase.Connected? && n <= |s.phase.wire|
    requires UnknownSentinel !in s.phase.wire[..n]
    ensures TakenOff(s, Run(s, Receives(n)), n)
  {
    if n > 0 {
      var t := Run(s, Receives(n - 1));
      assert s.phase.wire[n - 1] in s.phase.wire[..n];
      ReceivesEmpty(s, n - 1);
      assert Receives(n) == Receives(n - 1) + [Receive];
      RunMore(s, Receives(n - 1), Receive);
      OneTakenOff(t);
      MoreTakenOff(s, t, Next(t, Receive), n - 1);
    } else {
      assert s.phase.wire[0..] == s.phase.wire && s.stream + [] == s.stream;
    }
  }

  /**
   * From every connected state whose wire holds no unknown sentinel, publishing what is half
   * published, then as many sends as events wait and as many receptions as items are on the wire
   * bring the client to where it has caught up.
   */
  lemma CatchesUp(s: State) returns (steps: seq<Step>)
    requires s.server.last >= 0.0 && s.phase.Connected? && s.phase.sub < |s.server.subs|
    requires UnknownSentinel !in s.phase.wire
    ensures forall step :: step in steps ==> GoesWell(step)
    ensures CaughtUp(Run(s, steps)) && SameAsked(s, Run(s, steps))
  {
    var a := Publishing(|s.server.unpublished|);
    ServerPublishes(s, |s.server.unpublished|);
    M.PublicationsEmpty(s.server, |s.server.unpublished|);
    var rest := SendsAndReceives(Run(s, a));
    steps := a + rest;
    RunConcat(s, a, rest);
  }

  lemma SendsAndReceives(s: State) returns (steps: seq<Step>)
    requires s.server.last >= 0.0 && s.phase.Connected? && s.phase.sub < |s.server.subs|
    requires s.server.unpublished == [] && UnknownSentinel !in s.phase.wire
    ensures forall step :: step in steps ==> GoesWell(step)
    ensures CaughtUp(Run(s, steps)) && SameAsked(s, Run(s, steps))
  {
    var n := M.Waiting(s.server.subs[s.phase.sub]);
    SendsTake(s, n);
    M.TakesHandOutAll(s.server, s.phase.sub, n);
    var sent := Run(s, Sends(n));
    ReceivesEmpty(sent, |sent.phase.wire|);
    steps := Sends(n) + Receives(|sent.phase.wire|);
    RunConcat(s, Sends(n), Receives(|sent.phase.wire|));
  }

  /** An unknown sentinel ends the subscription, but not before everything ahead of it is delivered. */
  lemma SentinelEnds(s: State)
    requires s.server.last >= 0.0 && s.phase.Connected? && UnknownSentinel !in s.phase.wire
    ensures var n := |s.phase.wire|;
            var t := Next(Run(Next(s, Beat(UnknownSentinel)), Receives(n)), Receive);
            t.phase.Dead? && t.stream == s.stream + Envelopes(s.phase.wire) && t.server == s.server
  {
    var n, beaten := |s.phase.wire|, Next(s, Beat(UnknownSentinel));
    assert beaten.phase.wire[..n] == s.phase.wire && beaten.phase.wire[n..] == [UnknownSentinel];
    ReceivesEmpty(beaten, n);
  }

  /** A disconnected client connects as soon as no batch is half published. */
  lemma ConnectsThenCatchesUp(s: State) returns (steps: seq<Step>)
    requires s.server.last >= 0.0 && s.phase.Disconnected?
    ensures forall step :: step in steps ==> GoesWell(step)
    ensures CaughtUp(Run(s, steps)) && SameAsked(s, Run(s, steps))
  {
    var a := Publishing(|s.server.unpublished|);
    ServerPublishes(s, |s.server.unpublished|);
    M.PublicationsEmpty(s.server, |s.server.unpublished|);
    RunMore(s, a, Connect);
    var connected := Run(s, a + [Connect]);
    var rest := CatchesUp(connected);
    steps := a + [Connect] + rest;
    RunConcat(s, a + [Connect], rest);
  }

  /** What is left of a drain is delivered, and the drain ends. */
  lemma DrainFinishes(s: State) returns (steps: seq<Step>)
    requires s.server.last >= 0.0 && s.phase.Draining? && Ordered(s.server.log)
    ensures Drains([], steps) && Run(s, steps).phase.Disconnected? && SameAsked(s, Run(s, steps))
    ensures Run(s, steps).server == s.server
  {
    var once := PageRuns(s, [], s, s.phase.at, s.phase.page);
    steps := DrainRuns(s, once, Run(s, once));
  }

  /**
   * No live client is ever stuck: from every state but a dead one, steps that all go well lead to
   * where it has caught up.
   */
  lemma NeverStuck(s: State) returns (steps: seq<Step>)
    requires Inv(s) && s.server.last.Floor < Ulid.STAMP_LIMIT && !s.phase.Dead?
    requires s.phase.Connected? ==> UnknownSentinel !in s.phase.wire
    ensures forall step :: step in steps ==> GoesWell(step)
    ensures CaughtUp(Run(s, steps)) && SameAsked(s, Run(s, steps))
  {
    match s.phase {
      case Connected(_, _, _) => steps := CatchesUp(s);
      case Disconnected => steps := ConnectsThenCatchesUp(s);
      case Draining(_, _) =>
        var a := DrainFinishes(s);
        var b := ConnectsThenCatchesUp(Run(s, a));
        steps := a + b;
        RunConcat(s, a, b);
    }
  }

  /**
   * A permanent failure ends the subscription with what it has delivered; after a transient one it
   * connects again from its last delivery, or starts its drain over.
   */
  lemma FailuresEnd(s: State, transient: bool)
    requires s.server.last >= 0.0
    ensures s.phase.Connected? ==>
              var t := Next(s, ConnectionFails(transient));
              && t.stream == s.stream && t.lastDelivered == s.lastDelivered && t.server == s.server
              && (t.phase.Dead? <==> !transient) && (t.phase.Disconnected? <==> transient)
    ensures s.phase.Draining? && |s.phase.page| == 0 ==>
              var t := Next(s, DrainFails(transient));
              && Delivered(t) == Delivered(s) && (t.phase.Dead? <==> !transient)
              && (transient ==> t.stream == [] && t.phase == Draining(s.cursor, []))
  {
    assert Flatten(s.abandoned + [s.stream]) == Flatten(s.abandoned) + s.stream by {
      assert (s.abandoned + [s.stream])[..|s.abandoned|] == s.abandoned;
    }
    assert Delivered(s) + [] == Delivered(s);
  }

  /** A dead subscription delivers nothing any more. */
  lemma {:induction false} DeadStaysDead(s: State, steps: seq<Step>)
    requires s.server.last >= 0.0 && s.phase.Dead?
    ensures Run(s, steps).phase.Dead? && Delivered(Run(s, steps)) == Delivered(s)
  {
    if |steps| > 0 { DeadStaysDead(s, steps[..|steps| - 1]); }
  }

  /** No publication finds the current connection's window full. */
  ghost predicate KeepsUp(s: State, steps: seq<Step>)
    requires s.server.last >= 0.0
  {
    forall k :: 0 <= k < |steps| ==> HasRoom(Run(s, steps[..k]), steps[k])
  }

  ghost predicate HasRoom(s: State, step: Step) {
    step == Server(M.Publish) && s.phase.Connected? && s.phase.sub < |s.server.subs| ==>
      |s.server.subs[s.phase.sub].queue| < M.WINDOW
  }

  ghost predicate Connects(s: State) {
    !s.gapped &&
      (s.phase.Connected? ==> s.phase.sub < |s.server.subs| && M.Whole(s.server.subs[s.phase.sub]))
  }

  lemma RoomKeepsGapless(s: State, step: Step)
    requires s.server.last >= 0.0 && Connects(s) && HasRoom(s, step)
    ensures Connects(Next(s, step))
  {
    if s.phase.Connected? {
      match step
      case Server(inner) => M.RoomLosesNothing(s.server, inner, s.phase.sub);
      case Send => M.RoomLosesNothing(s.server, M.Take(s.phase.sub), s.phase.sub);
      case _ =>
    }
  }

  /** A client that keeps up with every connection it makes loses nothing: the premise of the theorems above. */
  lemma {:induction false} KeepingUpIsGapless(s: State, steps: seq<Step>)
    requires s.server.last >= 0.0 && Connects(s) && KeepsUp(s, steps)
    ensures Connects(Run(s, steps)) && Gapless(Run(s, steps)) && WindowHeld(Run(s, steps))
  {
    if |steps| > 0 {
      var init := steps[..|steps| - 1];
      forall k | 0 <= k < |init| ensures HasRoom(Run(s, init[..k]), init[k]) {
        assert init[..k] == steps[..k];
      }
      KeepingUpIsGapless(s, init);
      assert HasRoom(Run(s, init), steps[|steps| - 1]);
      RoomKeepsGapless(Run(s, init), steps[|steps| - 1]);
    }
  }

  /**
   * A "latest" subscriber that has received nothing resolves "latest" again when it reconnects.
   * Whatever is appended afterwards, the new connection owes it everything since the `n` events
   * of its first snapshot exactly when no wanted event was appended in between.
   */
  lemma LatestForgets(s: State, n: nat, later: seq<Event>)
    requires M.Inv(s.server) && s.phase.Disconnected? && |s.server.unpublished| == 0
    requires s.cursor.Latest? && s.lastDelivered.Latest?
    requires n <= |s.server.log| && Ordered(s.server.log + later)
    ensures var sub := Next(s, Connect).server.subs[|s.server.subs|];
            var log := s.server.log + later;
            (Select(log, M.WantsOf(sub)) == Select(log[n..], s.p) <==> Select(s.server.log[n..], s.p) == [])
  {
    var sub := M.NewSubscriber(s.server, Latest, s.p);
    assert Next(s, Connect).server.subs[|s.server.subs|] == sub;
    M.LatestOwes(s.server.log, later, n, sub);
  }

  /** What receiving one item does, for every state: `Subscription.OnItem` does the same. */
  lemma ItemReceived(s: State)
    requires s.server.last >= 0.0 && s.phase.Connected? && |s.phase.wire| > 0
    ensures var s', item := Next(s, Receive), s.phase.wire[0];
            && s'.stream == s.stream + Envelopes([item])
            && s'.lastDelivered == (if item.Envelope? then At(item.event.id) else s.lastDelivered)
            && (s'.phase.Dead? <==> item.UnknownSentinel?)
  {
    EnvelopesPush([], s.phase.wire[0]);
    assert [] + [s.phase.wire[0]] == [s.phase.wire[0]];
    assert s.stream + [] == s.stream;
  }

  // ----- the client object --------------------------------------------------------

  /** The log a page read was answered from, or nothing when the read failed. */
  type PageRead = Option<seq<Event>>

  /** The server's log only grows, in order, from one answered read to the next. */
  ghost predicate Growing(answers: seq<PageRead>) {
    && (forall i :: 0 <= i < |answers| && answers[i].Some? ==> Ordered(answers[i].value))
    && (forall i, j :: 0 <= i <= j < |answers| && answers[i].Some? && answers[j].Some? ==>
          answers[i].value <= answers[j].value)
  }

  predicate AllAnswered(answers: seq<PageRead>, n: nat) {
    n <= |answers| && forall i :: 0 <= i < n ==> answers[i].Some?
  }

  /** The log as the last of the first `n` reads saw it. */
  function LastRead(answers: seq<PageRead>, n: nat): seq<Event>
    requires AllAnswered(answers, n)
  {
    if n == 0 then [] else answers[n - 1].value
  }

  lemma ReadsGrow(answers: seq<PageRead>, n: nat)
    requires Growing(answers) && AllAnswered(answers, n + 1)
    ensures LastRead(answers, n) <= answers[n].value && Ordered(answers[n].value)
  {
  }

  /** What an attempt of the drain has emitted after `n` answered reads. */
  function PagesRead(answers: seq<PageRead>, n: nat, cursor: Cursor, p: Event -> bool): seq<Event>
    requires AllAnswered(answers, n)
    decreases n, 0
  {
    if n == 0 then [] else PagesRead(answers, n - 1, cursor, p) + NextPage(answers, n - 1, cursor, p)
  }

  /** The page that read `n`, if it is answered, comes back with. */
  function NextPage(answers: seq<PageRead>, n: nat, cursor: Cursor, p: Event -> bool): seq<Event>
    requires AllAnswered(answers, n + 1)
    decreases n, 1
  {
    QueryAfter(answers[n].value, Position(cursor, PagesRead(answers, n, cursor, p)), p, PAGE_LIMIT)
  }

  /**
   * Whatever the server appends meanwhile: an attempt emits whole pages, the beginning of what was
   * asked for, and all of what the last read's log had once a page is empty.
   */
  lemma {:induction false} AttemptIs(answers: seq<PageRead>, n: nat, cursor: Cursor, p: Event -> bool)
    requires Growing(answers) && AllAnswered(answers, n)
    ensures var x, log := PagesRead(answers, n, cursor, p), LastRead(answers, n);
            && InPages(log, cursor, p, x) && x <= Rest(log, cursor, p)
            && (n > 0 && NextPage(answers, n - 1, cursor, p) == [] ==> x == Rest(log, cursor, p))
  {
    if n > 0 {
      AttemptIs(answers, n - 1, cursor, p);
      ReadsGrow(answers, n - 1);
      AttemptStep(LastRead(answers, n - 1), answers[n - 1].value, cursor, p, PagesRead(answers, n - 1, cursor, p));
    }
  }

  /** And every read before that adds an event, so an attempt ends within as many reads as there are events. */
  lemma {:induction false} EachReadAdds(answers: seq<PageRead>, n: nat, cursor: Cursor, p: Event -> bool)
    requires AllAnswered(answers, n) && forall i :: 0 <= i < n ==> NextPage(answers, i, cursor, p) != []
    ensures |PagesRead(answers, n, cursor, p)| >= n
  {
    if n > 0 {
      EachReadAdds(answers, n - 1, cursor, p);
      assert NextPage(answers, n - 1, cursor, p) != [];
    }
  }

  lemma AttemptStep(before: seq<Event>, log: seq<Event>, cursor: Cursor, p: Event -> bool, x: seq<Event>)
    requires before <= log && Ordered(log) && InPages(before, cursor, p, x) && x <= Rest(before, cursor, p)
    ensures var page := QueryAfter(log, Position(cursor, x), p, PAGE_LIMIT);
            && InPages(log, cursor, p, x + page) && x + page <= Rest(log, cursor, p)
            && (page == [] ==> x + page == Rest(log, cursor, p))
  {
    var page := QueryAfter(log, Position(cursor, x), p, PAGE_LIMIT);
    RestGrows(before, log, cursor, p);
    PagesStay(before, log, cursor, p, x);
    PageContinues(log, cursor, p, x);
    OnePageMore(log, cursor, p, x, page);
    if |page| == 0 { assert x + page == x; }
  }

  /** The first empty page ends the attempt. */
  ghost predicate EndsAtEmpty(answers: seq<PageRead>, n: nat, ended: bool, cursor: Cursor, p: Event -> bool)
    requires AllAnswered(answers, n)
  {
    && (ended ==> n > 0 && NextPage(answers, n - 1, cursor, p) == [])
    && forall i :: 0 <= i < (if ended then n - 1 else n) ==> NextPage(answers, i, cursor, p) != []
  }

  /** One more answered read. */
  lemma ReadMore(answers: seq<PageRead>, n: nat, cursor: Cursor, p: Event -> bool, c: Cursor, emitted: seq<Event>)
    requires AllAnswered(answers, n + 1) && EndsAtEmpty(answers, n, false, cursor, p)
    ensures var x, page, all := PagesRead(answers, n, cursor, p), NextPage(answers, n, cursor, p),
                                PagesRead(answers, n + 1, cursor, p);
            && Position(cursor, all) == Position(Position(cursor, x), page)
            && Position(c, all) == Position(Position(c, x), page)
            && (emitted + x) + page == emitted + all
            && EndsAtEmpty(answers, n + 1, |page| == 0, cursor, p)
  {
    Associates(emitted, PagesRead(answers, n, cursor, p), NextPage(answers, n, cursor, p));
  }

  /** The refs one `subscribe` call keeps, and what it has emitted. */
  class Subscription {
    const cursor: Cursor
    var lastDelivered: Cursor
    var emitted: seq<Event>

    constructor (cursor: Cursor)
      ensures this.cursor == cursor && lastDelivered == Latest && emitted == []
    {
      this.cursor, lastDelivered, emitted := cursor, Latest, [];
    }

    /** The cursor a (re)connection asks the server for. */
    method Connect() returns (effective: Cursor)
      ensures effective == Resume(cursor, lastDelivered)
    {
      var resumeFrom := lastDelivered;
      effective := if resumeFrom == Latest then cursor else resumeFrom;
    }

    /** One item off the wire; false when the stream fails on it. */
    method OnItem(item: Item) returns (ok: bool)
      modifies this
      ensures ok <==> !item.UnknownSentinel?
      ensures emitted == old(emitted) + Envelopes([item])
      ensures lastDelivered == if item.Envelope? then At(item.event.id) else old(lastDelivered)
    {
      ok := true;
      EnvelopesPush([], item);
      assert [] + [item] == [item];
      match item
      case Envelope(e) =>
        emitted := emitted + [e];
        lastDelivered := At(e.id);
      case Heartbeat =>
      case UnknownSentinel => ok := false;
    }

    /** The events of one page, each recorded as delivered when it is emitted. */
    method EmitPage(page: seq<Event>)
      modifies this
      ensures emitted == old(emitted) + page
      ensures lastDelivered == Position(old(lastDelivered), page)
    {
      for i := 0 to |page|
        invariant emitted == old(emitted) + page[..i]
        invariant lastDelivered == Position(old(lastDelivered), page[..i])
      {
        emitted := emitted + [page[i]];
        lastDelivered := At(page[i].id);
      }
    }

    /**
     * One attempt of the drain.  `answers` holds the server's log at each page read, or nothing where
     * the read fails; `answered` of them were answered before the attempt ended or gave up.
     */
    method Drain(answers: seq<PageRead>, p: Event -> bool) returns (ended: bool, answered: nat)
      modifies this
      ensures AllAnswered(answers, answered) && (!ended && answered < |answers| ==> answers[answered].None?)
      ensures emitted == old(emitted) + PagesRead(answers, answered, cursor, p)
      ensures lastDelivered == Position(old(lastDelivered), PagesRead(answers, answered, cursor, p))
      ensures EndsAtEmpty(answers, answered, ended, cursor, p)
    {
      ended, answered := false, 0;
      var at := cursor;
      while !ended && answered < |answers| && answers[answered].Some?
        invariant AllAnswered(answers, answered) && EndsAtEmpty(answers, answered, ended, cursor, p)
        invariant at == Position(cursor, PagesRead(answers, answered, cursor, p))
        invariant emitted == old(emitted) + PagesRead(answers, answered, cursor, p)
        invariant lastDelivered == Position(old(lastDelivered), PagesRead(answers, answered, cursor, p))
        decreases |answers| - answered
      {
        assert AllAnswered(answers, answered + 1);
        var page := QueryAfter(answers[answered].value, at, p, PAGE_LIMIT);
        ReadMore(answers, answered, cursor, p, old(lastDelivered), old(emitted));
        EmitPage(page);
        ended, answered := |page| == 0, answered + 1;
        if |page| > 0 { at := At(page[|page| - 1].id); }
      }
    }
  }

  /** The client's `append` and `latestCursor`: the cursor is that of its own appends, not the server's. */
  class Appender {
    var lastAppended: Cursor
    ghost var appended: seq<Event>

    ghost predicate Valid() reads this {
      lastAppended == LatestCursor(appended)
    }

    constructor ()
      ensures Valid() && appended == [] && lastAppended == Earliest
    {
      lastAppended, appended := Earliest, [];
    }

    /** `result` is what the server answered with. */
    method OnAppended(result: seq<Event>)
      requires Valid()
      modifies this
      ensures Valid() && appended == old(appended) + result
      ensures lastAppended == if |result| > 0 then At(result[|result| - 1].id) else old(lastAppended)
    {
      if |result| > 0 {
        lastAppended := At(result[|result| - 1].id);
      } else {
        assert appended + result == appended;
      }
      appended := appended + result;
    }
  }
}

/**
 * One supervised agent (packages/runtime/src/Supervisor.ts) on top of the event store: handler,
 * emits, pending cursor, and the flushes that persist it.
 */
module Supervisor {
  import opened Wrappers
  import opened Events
  import M = MemoryStore
  import Ulid

  // ----- cursor bookkeeping -------------------------------------------------------

  /** The agent's persisted cursor, and the two refs of its current life. */
  datatype Book = Book(saved: Cursor, pending: Option<nat>, count: nat)

  /** `flushCursorFor`: persist the pending cursor if there is one, start counting again. */
  function Flush(b: Book): Book {
    Book(if b.pending.Some? then At(b.pending.value) else b.saved, b.pending, 0)
  }

  /** The end of `onEvent`: `threshold` is `cursorFlush.events`. */
  function Complete(b: Book, id: nat, threshold: int): Book {
    var c := Book(b.saved, Some(id), b.count + 1);
    if c.count >= threshold then Flush(c) else c
  }

  /** A new life reads its start cursor and has nothing pending. */
  function Reopen(b: Book): Book {
    Book(b.saved, None, 0)
  }

  /** The same bookkeeping on mutable refs. */
  class AgentCursor {
    const threshold: int
    var saved: Cursor
    var pendingCursor: Option<nat>
    var flushedCount: nat

    ghost function View(): Book reads this {
      Book(saved, pendingCursor, flushedCount)
    }

    constructor (saved: Cursor, threshold: int)
      ensures View() == Reopen(Book(saved, None, 0)) && this.threshold == threshold
    {
      this.saved, this.threshold := saved, threshold;
      pendingCursor, flushedCount := None, 0;
    }

    method FlushCursor()
      modifies this
      ensures View() == Flush(old(View()))
      ensures flushedCount == 0 && pendingCursor == old(pendingCursor)
      ensures saved == if old(pendingCursor).Some? then At(old(pendingCursor).value) else old(saved)
    {
      if pendingCursor.Some? { saved := At(pendingCursor.value); }
      flushedCount := 0;
    }

    method EventDone(id: nat)
      modifies this
      ensures View() == Complete(old(View()), id, threshold)
      ensures pendingCursor == Some(id)
      ensures old(flushedCount) + 1 < threshold ==> saved == old(saved) && flushedCount == old(flushedCount) + 1
      ensures old(flushedCount) + 1 >= threshold ==> saved == At(id) && flushedCount == 0
    {
      pendingCursor := Some(id);
      flushedCount := flushedCount + 1;
      if flushedCount >= threshold { FlushCursor(); }
    }
  }

  // ----- the machine --------------------------------------------------------------

  /** `Emitted`: the handler returned and its emits are in the store, the cursor not yet moved. */
  datatype Work = Idle | Handling(event: Event) | Emitted(event: Event) | Failed(event: Event)

  datatype Life = Life(startCursor: Cursor, sub: nat, work: Work)

  /**
   * `done` maps each event whose handler returned and whose emits were appended to those emits;
   * `completed` holds the ids for which `onEvent` ran to its end.  Both survive crashes, since
   * they record what has happened.  `gapped` as in the cloud subscriber.
   */
  datatype State = State(
    store: M.State,
    agent: string,
    p: Event -> bool,
    threshold: int,
    book: Book,
    life: Option<Life>,
    done: map<nat, seq<Event>>,
    completed: set<nat>,
    gapped: bool)

  /** Handler failures, retries, clean exits and crashes, and whatever else happens to the store. */
  datatype Step =
    | Env(step: M.Step)
    | StartUp
    | Deliver
    | HandlerReturns(emits: seq<EventInput>, ticks: seq<M.Tick>)
    | HandlerFails
    | Retry
    | Finish
    | TimerFlush
    | Exit
    | Crash

  /** A fresh deployment whose cursor store holds `saved` for this agent. */
  function Start(store: M.State, agent: string, p: Event -> bool, threshold: int, saved: Cursor): State {
    State(store, agent, p, threshold, Book(saved, None, 0), None, map[], {}, false)
  }

  /** Emits default to the agent as actor and cite the event that caused them. */
  function Stamp(agent: string, cause: nat, emits: seq<EventInput>): (r: seq<EventInput>)
    ensures |r| == |emits|
  {
    seq(|emits|, i requires 0 <= i < |emits| =>
      EventInput(emits[i].kind,
        Some(if emits[i].actor.Some? then emits[i].actor.value else agent),
        Some(if emits[i].source.Some? then emits[i].source.value else "agent"),
        Some([cause]), emits[i].payload))
  }

  /** The agent's current subscription has handed it an event from behind a gap in its window. */
  predicate PastGap(s: State) {
    && s.life.Some? && s.life.value.sub < |s.store.subs|
    && var sub := s.store.subs[s.life.value.sub]; M.PastGap(sub, |sub.got|)
  }

  /** No subscription of the agent ever did. */

  predicate Gapless(s: State) {
    !s.gapped && !PastGap(s)
  }

  function Leave(s: State): State {
    s.(life := None, gapped := s.gapped || PastGap(s))
  }

  function Subscribed(s: State, cursor: Cursor): State
    requires s.store.last >= 0.0
  {
    s.(store := M.Join(s.store, cursor, s.p), life := Some(Life(cursor, |s.store.subs|, Idle)))
  }

  function WithWork(s: State, work: Work): State
    requires s.life.Some?
  {
    s.(life := Some(s.life.value.(work := work)))
  }

  function DeliverOne(s: State): (r: State)
    requires s.store.last >= 0.0 && s.life.Some? && s.life.value.sub < |s.store.subs|
    ensures r.store.last == s.store.last
  {
    var k := s.life.value.sub;
    var got, pulled := s.store.subs[k].got, M.Pull(s.store.subs[k]).got;
    var t := s.(store := M.Next(s.store, M.Take(k)));
    if |pulled| > |got| then WithWork(t, Handling(pulled[|got|])) else t
  }

  /** The emits go to the store in one append, or nothing does when there are none. */
  function Return(s: State, e: Event, emits: seq<EventInput>, ticks: seq<M.Tick>): (r: State)
    requires s.store.last >= 0.0 && s.life.Some? && |s.store.unpublished| == 0 && |emits| == |ticks|
    ensures r.store.last >= s.store.last
  {
    var store := if |emits| == 0 then s.store else M.Next(s.store, M.BeginAppend(Stamp(s.agent, e.id, emits), ticks));
    WithWork(s.(store := store, done := s.done[e.id := store.log[|s.store.log|..]]), Emitted(e))
  }

  /** A step that does not apply leaves the state alone. */
  function Next(s: State, step: Step): (r: State)
    requires s.store.last >= 0.0
    ensures r.store.last >= s.store.last
  {
    if step.Env? then
      if s.life.Some? && step.step == M.Take(s.life.value.sub) then s else s.(store := M.Next(s.store, step.step))
    else if step.StartUp? then
      if s.life.Some? || |s.store.unpublished| > 0 then s else Subscribed(s.(book := Reopen(s.book)), s.book.saved)
    else if s.life.None? then s
    else
      var life := s.life.value;
      match step
      case Deliver =>
        if life.work != Idle || life.sub >= |s.store.subs| then s else DeliverOne(s)
      case HandlerReturns(emits, ticks) =>
        if !life.work.Handling? || |s.store.unpublished| > 0 || |emits| != |ticks| then s
        else Return(s, life.work.event, emits, ticks)
      case HandlerFails =>
        if !life.work.Handling? then s else WithWork(s, Failed(life.work.event))
      case Retry =>
        if !life.work.Failed? || |s.store.unpublished| > 0 then s
        else Subscribed(s.(gapped := s.gapped || PastGap(s)), life.startCursor)
      case Finish =>
        if !life.work.Emitted? then s
        else WithWork(s.(book := Complete(s.book, life.work.event.id, s.threshold),
                         completed := s.completed + {life.work.event.id}), Idle)
      case TimerFlush => s.(book := Flush(s.book))
      case Exit => Leave(s.(book := Flush(s.book)))
      case Crash => Leave(s)
  }

  function Run(s: State, steps: seq<Step>): (r: State)
    requires s.store.last >= 0.0
    ensures r.store.last >= s.store.last
  {
    if |steps| == 0 then s else Next(Run(s, steps[..|steps| - 1]), steps[|steps| - 1])
  }

  ghost predicate ValidStep(step: Step) {
    && (step.Env? ==> M.ValidStep(step.step))
    && (step.HandlerReturns? ==> M.ValidTicks(step.ticks))
  }

  ghost predicate ValidSteps(steps: seq<Step>) {
    forall i :: 0 <= i < |steps| ==> ValidStep(steps[i])
  }

  // ----- the persisted cursor is never ahead of the work --------------------------

  /** Every event the agent asked for since `origin`, up to the cursor, is done. */
  ghost predicate UpTo(asked: seq<Event>, done: map<nat, seq<Event>>, c: Cursor) {
    c.At? ==> forall e :: e in asked && e.id <= c.id ==> e.id in done
  }

  ghost predicate Safe(s: State, origin: Cursor, c: Cursor) {
    UpTo(Rest(s.store.log, origin, s.p), s.done, c)
  }

  ghost predicate BookSafe(s: State, origin: Cursor)
    requires s.store.last >= 0.0
  {
    && M.Below(s.book.saved, s.store) && Safe(s, origin, s.book.saved)
    && (s.book.pending.Some? ==>
          M.Below(At(s.book.pending.value), s.store) && Safe(s, origin, At(s.book.pending.value)))
  }

  /** How much of what was delivered is done. */
  ghost predicate GotDone(got: seq<Event>, work: Work, done: map<nat, seq<Event>>) {
    match work
    case Idle => forall i :: 0 <= i < |got| ==> got[i].id in done
    case Handling(e) => |got| > 0 && got[|got| - 1] == e && forall i :: 0 <= i < |got| - 1 ==> got[i].id in done
    case Emitted(e) => |got| > 0 && got[|got| - 1] == e && forall i :: 0 <= i < |got| ==> got[i].id in done
    case Failed(e) => |got| > 0 && got[|got| - 1] == e
  }

  ghost predicate LifeSafe(s: State, origin: Cursor)
    requires s.store.last >= 0.0 && s.life.Some?
  {
    var life := s.life.value;
    && life.sub < |s.store.subs|
    && var sub := s.store.subs[life.sub];
       && M.Below(life.startCursor, s.store) && Safe(s, origin, life.startCursor)
       && sub.p == s.p && sub.cursor == life.startCursor && M.Covered(sub)
       && GotDone(sub.got, life.work, s.done)
  }

  /** `origin` is the cursor the deployment started with. */
  ghost predicate Inv(s: State, origin: Cursor) {
    && M.Inv(s.store)
    && (s.life.Some? ==> s.life.value.sub < |s.store.subs|)
    && (s.store.last.Floor < Ulid.STAMP_LIMIT && Gapless(s) ==>
          && BookSafe(s, origin)
          && (s.life.Some? ==> LifeSafe(s, origin)))
  }

  lemma SafeStays(s: State, s': State, origin: Cursor, c: Cursor)
    requires M.Inv(s.store) && M.Extends(s.store, s'.store) && s'.store.last.Floor < Ulid.STAMP_LIMIT
    requires s'.p == s.p && s.done.Keys <= s'.done.Keys
    requires M.Below(c, s.store) && Safe(s, origin, c)
    ensures M.Below(c, s'.store) && Safe(s', origin, c)
  {
    M.BelowStays(c, s.store, s'.store);
    var log, log' := s.store.log, s'.store.log;
    if c.At? {
      forall e | e in Rest(log', origin, s.p) && e.id <= c.id ensures e.id in s'.done {
        SelectMember(log', Wants(origin, s.p), e);
        var i :| 0 <= i < |log'| && log'[i] == e;
        assert i < |log|;
        assert log'[i] == log[i];
        SelectMember(log, Wants(origin, s.p), e);
      }
    }
  }

  lemma BookStays(s: State, s': State, origin: Cursor)
    requires M.Inv(s.store) && M.Extends(s.store, s'.store) && s'.store.last.Floor < Ulid.STAMP_LIMIT
    requires s'.p == s.p && s.done.Keys <= s'.done.Keys && s'.book == s.book && BookSafe(s, origin)
    ensures BookSafe(s', origin)
  {
    SafeStays(s, s', origin, s.book.saved);
    if s.book.pending.Some? { SafeStays(s, s', origin, At(s.book.pending.value)); }
  }

  lemma EnvKeeps(s: State, origin: Cursor, step: M.Step)
    requires Inv(s, origin) && M.ValidStep(step) && !(s.life.Some? && step == M.Take(s.life.value.sub))
    ensures Inv(s.(store := M.Next(s.store, step)), origin)
  {
    var s' := s.(store := M.Next(s.store, step));
    M.StepLeaves(s.store, step);
    if s'.store.last.Floor < Ulid.STAMP_LIMIT && Gapless(s') {
      BookStays(s, s', origin);
      if s.life.Some? { SafeStays(s, s', origin, s.life.value.startCursor); }
    }
  }

  lemma SubscribedKeeps(s: State, origin: Cursor, cursor: Cursor)
    requires M.Inv(s.store) && |s.store.unpublished| == 0
    requires s.store.last.Floor < Ulid.STAMP_LIMIT && Gapless(Subscribed(s, cursor)) ==>
      BookSafe(s, origin) && M.Below(cursor, s.store) && Safe(s, origin, cursor)
    ensures Inv(Subscribed(s, cursor), origin)
  {
    M.SubscribeKeeps(s.store, cursor, s.p);
  }

  lemma GotMore(got: seq<Event>, handed: seq<Event>, done: map<nat, seq<Event>>)
    requires GotDone(got, Idle, done) && |handed| <= 1
    ensures GotDone(got + handed, if |handed| > 0 then Handling(handed[0]) else Idle, done)
  {
  }

  /** What a delivery changes: the subscription's progress and the work at hand. */
  lemma DeliverChanges(s: State) returns (handed: seq<Event>)
    requires M.Inv(s.store) && s.life.Some? && s.life.value.sub < |s.store.subs| && s.life.value.work == Idle
    ensures var s', k := DeliverOne(s), s.life.value.sub;
            var work := if |handed| > 0 then Handling(handed[0]) else Idle;
            && |handed| <= 1 && M.Inv(s'.store) && s'.store.log == s.store.log && s'.store.last == s.store.last
            && s' == s.(store := s'.store, life := Some(s.life.value.(work := work)))
            && k < |s'.store.subs|
            && s'.store.subs[k].got == s.store.subs[k].got + handed
            && s'.store.subs[k].cursor == s.store.subs[k].cursor && s'.store.subs[k].p == s.store.subs[k].p
            && s'.store.subs[k].floor == s.store.subs[k].floor && s'.store.subs[k].gap == s.store.subs[k].gap
            && s'.store.subs[k].lost == s.store.subs[k].lost
            && s'.store.subs[k].snapshotMax == s.store.subs[k].snapshotMax
  {
    handed := M.PullHands(s.store.subs[s.life.value.sub]);
    M.TakeKeeps(s.store, s.life.value.sub);
  }

  lemma DeliverKeeps(s: State, origin: Cursor)
    requires Inv(s, origin) && s.life.Some? && s.life.value.work == Idle
    ensures Inv(DeliverOne(s), origin)
  {
    var handed := DeliverChanges(s);
    if s.store.last.Floor < Ulid.STAMP_LIMIT && Gapless(s) {
      GotMore(s.store.subs[s.life.value.sub].got, handed, s.done);
    }
  }

  /** What a returning handler changes: its emits, if any, are stored, and its event is done. */
  lemma ReturnChanges(s: State, e: Event, emits: seq<EventInput>, ticks: seq<M.Tick>)
    requires M.Inv(s.store) && s.life.Some? && s.life.value.sub < |s.store.subs|
    requires |s.store.unpublished| == 0 && |emits| == |ticks| && M.ValidTicks(ticks)
    ensures var s' := Return(s, e, emits, ticks);
            && M.Inv(s'.store) && M.Extends(s.store, s'.store)
            && s.life.value.sub < |s'.store.subs|
            && M.SameSub(s.store.subs[s.life.value.sub], s'.store.subs[s.life.value.sub])
            && s' == s.(store := s'.store, done := s'.done, life := s'.life)
            && s'.life == Some(s.life.value.(work := Emitted(e)))
            && s'.done.Keys == s.done.Keys + {e.id}
  {
    if |emits| > 0 { M.StepLeaves(s.store, M.BeginAppend(Stamp(s.agent, e.id, emits), ticks)); }
  }

  lemma GotReturned(got: seq<Event>, e: Event, done: map<nat, seq<Event>>, done': map<nat, seq<Event>>)
    requires GotDone(got, Handling(e), done) && done'.Keys == done.Keys + {e.id}
    ensures GotDone(got, Emitted(e), done')
  {
  }

  lemma ReturnKeeps(s: State, origin: Cursor, e: Event, emits: seq<EventInput>, ticks: seq<M.Tick>)
    requires Inv(s, origin) && s.life.Some? && s.life.value.work == Handling(e)
    requires |s.store.unpublished| == 0 && |emits| == |ticks| && M.ValidTicks(ticks)
    ensures Inv(Return(s, e, emits, ticks), origin)
  {
    var s' := Return(s, e, emits, ticks);
    ReturnChanges(s, e, emits, ticks);
    if s'.store.last.Floor < Ulid.STAMP_LIMIT && Gapless(s') {
      BookStays(s, s', origin);
      SafeStays(s, s', origin, s.life.value.startCursor);
      GotReturned(s.store.subs[s.life.value.sub].got, e, s.done, s'.done);
    }
  }

  /** The last delivered event is a cursor the work has reached. */
  lemma DeliveredIsSafe(s: State, origin: Cursor, e: Event)
    requires Inv(s, origin) && s.store.last.Floor < Ulid.STAMP_LIMIT && Gapless(s)
    requires s.life.Some? && s.life.value.work == Emitted(e)
    ensures M.Below(At(e.id), s.store) && Safe(s, origin, At(e.id))
  {
    var start, sub := s.life.value.startCursor, s.store.subs[s.life.value.sub];
    var log := s.store.log;
    var owed := Rest(log, start, s.p);
    M.HandedUpToGap(s.store, s.life.value.sub, |sub.got|);
    assert sub.got[..|sub.got|] == sub.got;
    SelectAgree(log, M.WantsOf(sub), Wants(start, s.p));
    SelectOrdered(log, Wants(start, s.p));
    SelectMember(log, Wants(start, s.p), e);
    assert e in owed;
    forall x | x in Rest(log, origin, s.p) && x.id <= e.id ensures x.id in s.done {
      SelectMember(log, Wants(origin, s.p), x);
      SelectMember(log, Wants(start, s.p), x);
      if x in owed {
        var i :| 0 <= i < |owed| && owed[i] == x;
        assert i < |sub.got|;
        assert sub.got[i] == x;
      }
    }
  }

  lemma FinishKeeps(s: State, origin: Cursor)
    requires Inv(s, origin) && s.life.Some? && s.life.value.work.Emitted?
    ensures Inv(Next(s, Finish), origin)
  {
    if s.store.last.Floor < Ulid.STAMP_LIMIT && Gapless(s) {
      DeliveredIsSafe(s, origin, s.life.value.work.event);
    }
  }

  /** One step keeps the invariant, whatever fails or crashes. */
  lemma StepKeeps(s: State, origin: Cursor, step: Step)
    requires Inv(s, origin) && ValidStep(step)
    ensures Inv(Next(s, step), origin)
  {
    var life := s.life;
    match step {
      case Env(inner) =>
        if !(life.Some? && inner == M.Take(life.value.sub)) { EnvKeeps(s, origin, inner); }
      case StartUp =>
        if life.None? && |s.store.unpublished| == 0 {
          SubscribedKeeps(s.(book := Reopen(s.book)), origin, s.book.saved);
        }
      case Deliver =>
        if life.Some? && life.value.work == Idle { DeliverKeeps(s, origin); }
      case HandlerReturns(emits, ticks) =>
        if life.Some? && life.value.work.Handling? && |s.store.unpublished| == 0 && |emits| == |ticks| {
          ReturnKeeps(s, origin, life.value.work.event, emits, ticks);
        }
      case HandlerFails =>
      case Retry =>
        if life.Some? && life.value.work.Failed? && |s.store.unpublished| == 0 {
          SubscribedKeeps(s.(gapped := s.gapped || PastGap(s)), origin, life.value.startCursor);
        }
      case Finish =>
        if life.Some? && life.value.work.Emitted? { FinishKeeps(s, origin); }
      case TimerFlush =>
      case Exit =>
      case Crash =>
    }
  }

  lemma {:induction false} RunKeeps(s: State, origin: Cursor, steps: seq<Step>)
    requires Inv(s, origin) && ValidSteps(steps)
    ensures Inv(Run(s, steps), origin)
  {
    if |steps| > 0 {
      RunKeeps(s, origin, steps[..|steps| - 1]);
      StepKeeps(Run(s, steps[..|steps| - 1]), origin, steps[|steps| - 1]);
    }
  }

  // ----- gaps -----------------------------------------------------------------------

  /** No step of the run is bad in the state it is taken in. */
  ghost predicate Never(bad: (State, Step) -> bool, s: State, steps: seq<Step>)
    requires s.store.last >= 0.0
  {
    |steps| == 0 ||
      (Never(bad, s, steps[..|steps| - 1]) && !bad(Run(s, steps[..|steps| - 1]), steps[|steps| - 1]))
  }

  /** The agent is handed an event that left its window after a wanted one had been pushed out of it. */
  predicate HandsPastGap(s: State, step: Step) {
    && step.Deliver? && s.life.Some? && s.life.value.work == Idle
    && M.TakesPastGap(s.store, M.Take(s.life.value.sub), s.life.value.sub)
  }

  lemma ReturnStaysGapless(s: State, e: Event, emits: seq<EventInput>, ticks: seq<M.Tick>)
    requires M.Inv(s.store) && s.life.Some? && s.life.value.sub < |s.store.subs|
    requires |s.store.unpublished| == 0 && |emits| == |ticks|
    ensures Gapless(Return(s, e, emits, ticks)) <==> Gapless(s)
  {
  }

  /** Only such a step passes a gap, and it always does. */
  lemma StepPassesGap(s: State, step: Step)
    requires Stands(s) && s.store.last.Floor < Ulid.STAMP_LIMIT
    ensures Gapless(Next(s, step)) <==> Gapless(s) && !HandsPastGap(s, step)
  {
    match step {
      case Env(inner) => if s.life.Some? { M.StepTakesPastGap(s.store, inner, s.life.value.sub); }
      case Deliver => if s.life.Some? { M.StepTakesPastGap(s.store, M.Take(s.life.value.sub), s.life.value.sub); }
      case HandlerReturns(emits, ticks) =>
        if s.life.Some? && s.life.value.work.Handling? && |s.store.unpublished| == 0 && |emits| == |ticks| {
          ReturnStaysGapless(s, s.life.value.work.event, emits, ticks);
        }
      case _ =>
    }
  }

  ghost predicate Stands(s: State) {
    M.Inv(s.store) && (s.life.Some? ==> s.life.value.sub < |s.store.subs|)
  }

  lemma StepStands(s: State, step: Step)
    requires Stands(s) && ValidStep(step)
    ensures Stands(Next(s, step))
  {
    StepStores(s, step);
  }

  lemma {:induction false} RunStands(s: State, steps: seq<Step>)
    requires Stands(s) && ValidSteps(steps)
    ensures Stands(Run(s, steps))
  {
    if |steps| > 0 {
      RunStands(s, steps[..|steps| - 1]);
      StepStands(Run(s, steps[..|steps| - 1]), steps[|steps| - 1]);
    }
  }

  lemma {:induction false} GaplessExactly(s: State, steps: seq<Step>)
    requires Stands(s) && ValidSteps(steps) && Gapless(s) && Run(s, steps).store.last.Floor < Ulid.STAMP_LIMIT
    ensures Stands(Run(s, steps)) && (Gapless(Run(s, steps)) <==> Never(HandsPastGap, s, steps))
  {
    if |steps| > 0 {
      var init := steps[..|steps| - 1];
      GaplessExactly(s, init);
      StepStands(Run(s, init), steps[|steps| - 1]);
      StepPassesGap(Run(s, init), steps[|steps| - 1]);
    }
  }

  // ----- the safety theorem ---------------------------------------------------------

  lemma StartInv(store: M.State, agent: string, p: Event -> bool, threshold: int, saved: Cursor)
    requires M.Inv(store) && M.Below(saved, store)
    ensures Inv(Start(store, agent, p, threshold, saved), saved)
  {
    SelectMembers(store.log, Wants(saved, p));
  }

  /**
   * The persisted cursor is never ahead of the work.  Started from "earliest" or a saved id, and as
   * long as it is handed nothing from behind a gap in its window, an agent has handled every
   * matching event after that start up to its persisted cursor and appended its emits, through any
   * run of handler failures, retries, count, timer and exit flushes, restarts and crashes.
   */
  lemma SavedIsNeverAhead(store: M.State, agent: string, p: Event -> bool, threshold: int, origin: Cursor,
                          steps: seq<Step>)
    requires M.Inv(store) && M.Below(origin, store) && ValidSteps(steps)
    requires Run(Start(store, agent, p, threshold, origin), steps).store.last.Floor < Ulid.STAMP_LIMIT
    requires Never(HandsPastGap, Start(store, agent, p, threshold, origin), steps)
    ensures var s := Run(Start(store, agent, p, threshold, origin), steps);
            && !s.book.saved.Latest?
            && (s.book.saved.At? ==>
                  forall e :: e in s.store.log && AfterCursor(origin, e) && p(e) && e.id <= s.book.saved.id ==>
                    e.id in s.done)
  {
    StartInv(store, agent, p, threshold, origin);
    RunKeeps(Start(store, agent, p, threshold, origin), origin, steps);
    GaplessExactly(Start(store, agent, p, threshold, origin), steps);
    var s := Run(Start(store, agent, p, threshold, origin), steps);
    RunFixes(Start(store, agent, p, threshold, origin), steps);
    SelectMembers(s.store.log, Wants(origin, s.p));
  }

  // ----- keeping up ----------------------------------------------------------------

  /** No publication finds the window of the agent's current subscription full. */
  ghost predicate KeepsUp(s: State, steps: seq<Step>)
    requires s.store.last >= 0.0
  {
    forall k :: 0 <= k < |steps| ==> HasRoom(Run(s, steps[..k]), steps[k])
  }

  ghost predicate HasRoom(s: State, step: Step) {
    step == Env(M.Publish) && s.life.Some? && s.life.value.sub < |s.store.subs| ==>
      |s.store.subs[s.life.value.sub].queue| < M.WINDOW
  }

  ghost predicate Lives(s: State) {
    !s.gapped && (s.life.Some? ==> s.life.value.sub < |s.store.subs| && M.Whole(s.store.subs[s.life.value.sub]))
  }

  lemma RoomKeepsGapless(s: State, step: Step)
    requires s.store.last >= 0.0 && Lives(s) && HasRoom(s, step)
    ensures Lives(Next(s, step))
  {
    if s.life.Some? {
      var k := s.life.value.sub;
      match step
      case Env(inner) => M.RoomLosesNothing(s.store, inner, k);
      case Deliver => M.RoomLosesNothing(s.store, M.Take(k), k);
      case HandlerReturns(emits, ticks) =>
        if s.life.value.work.Handling? && |s.store.unpublished| == 0 && |emits| == |ticks| {
        }
      case _ =>
    }
  }

  /** An agent that keeps up with its subscriptions loses nothing: the premise of `SavedIsNeverAhead`. */
  lemma {:induction false} KeepingUpIsGapless(s: State, steps: seq<Step>)
    requires s.store.last >= 0.0 && Lives(s) && KeepsUp(s, steps)
    ensures Lives(Run(s, steps)) && Gapless(Run(s, steps))
  {
    if |steps| > 0 {
      var init := steps[..|steps| - 1];
      forall k | 0 <= k < |init| ensures HasRoom(Run(s, init[..k]), init[k]) {
        assert init[..k] == steps[..k];
      }
      KeepingUpIsGapless(s, init);
      assert HasRoom(Run(s, init), steps[|steps| - 1]);
      RoomKeepsGapless(Run(s, init), steps[|steps| - 1]);
    }
  }

  /** What the agent is does not change. */
  ghost predicate SameAgent(s: State, s': State) {
    s'.p == s.p && s'.agent == s.agent && s'.threshold == s.threshold
  }

  lemma StepFixes(s: State, step: Step)
    requires s.store.last >= 0.0
    ensures SameAgent(s, Next(s, step))
  {
  }

  lemma {:induction false} RunFixes(s: State, steps: seq<Step>)
    requires s.store.last >= 0.0
    ensures SameAgent(s, Run(s, steps))
  {
    if |steps| > 0 {
      var before := Run(s, steps[..|steps| - 1]);
      RunFixes(s, steps[..|steps| - 1]);
      StepFixes(before, steps[|steps| - 1]);
    }
  }

  /** What `done` records: envelopes in the log, each citing the event it was emitted for. */
  ghost predicate DoneIn(done: map<nat, seq<Event>>, log: seq<Event>) {
    forall id, x :: id in done && x in done[id] ==> x in log && x.causedBy == Some([id])
  }

  ghost predicate DoneIsEmitted(s: State) {
    DoneIn(s.done, s.store.log)
  }

  /** The emits of a returning handler are what its event is done with. */
  lemma ReturnEmits(s: State, e: Event, emits: seq<EventInput>, ticks: seq<M.Tick>)
    requires M.Inv(s.store) && s.life.Some?
    requires |s.store.unpublished| == 0 && |emits| == |ticks| && M.ValidTicks(ticks)
    ensures var s' := Return(s, e, emits, ticks);
            var added := s'.store.log[|s.store.log|..];
            && s.store.log <= s'.store.log && s'.done == s.done[e.id := added]
            && |added| == |emits| && forall x :: x in added ==> x.causedBy == Some([e.id])
  {
    if |emits| > 0 {
      var stamped := Stamp(s.agent, e.id, emits);
      M.MintKeepsInputs(s.store.last, stamped, ticks);
      var es := M.Mint(s.store.last, stamped, ticks).0;
      assert (s.store.log + es)[|s.store.log|..] == es;
    }
  }

  /** Each emit is logged as the handler gave it, with the agent and "agent" where it named no actor and source. */
  lemma EmitsAreLogged(s: State, e: Event, emits: seq<EventInput>, ticks: seq<M.Tick>, i: nat)
    requires M.Inv(s.store) && s.life.Some?
    requires |s.store.unpublished| == 0 && |emits| == |ticks| && M.ValidTicks(ticks) && i < |emits|
    ensures var log, n := Return(s, e, emits, ticks).store.log, |s.store.log|;
            && n + i < |log| && var x := log[n + i];
               && x.kind == emits[i].kind && x.payload == emits[i].payload && x.causedBy == Some([e.id])
               && x.actor == (if emits[i].actor.Some? then emits[i].actor.value else s.agent)
               && x.source == (if emits[i].source.Some? then emits[i].source.value else "agent")
               && x.timestamp == ticks[i].timestamp
  {
    var stamped := Stamp(s.agent, e.id, emits);
    M.MintKeepsInputs(s.store.last, stamped, ticks);
    assert M.EnvelopeOf(M.Mint(s.store.last, stamped, ticks).0[i], stamped[i], ticks[i]);
  }

  lemma ReturnRecords(s: State, e: Event, emits: seq<EventInput>, ticks: seq<M.Tick>)
    requires M.Inv(s.store) && s.life.Some? && DoneIsEmitted(s)
    requires |s.store.unpublished| == 0 && |emits| == |ticks| && M.ValidTicks(ticks)
    ensures DoneIsEmitted(Return(s, e, emits, ticks))
  {
    ReturnEmits(s, e, emits, ticks);
  }

  lemma {:induction false} RunRecords(s: State, steps: seq<Step>)
    requires M.Inv(s.store) && DoneIsEmitted(s) && ValidSteps(steps)
    ensures M.Inv(Run(s, steps).store) && DoneIsEmitted(Run(s, steps))
  {
    if |steps| > 0 {
      RunRecords(s, steps[..|steps| - 1]);
      StepRecords(Run(s, steps[..|steps| - 1]), steps[|steps| - 1]);
    }
  }

  lemma ReturnStores(s: State, e: Event, emits: seq<EventInput>, ticks: seq<M.Tick>)
    requires M.Inv(s.store) && s.life.Some?
    requires |s.store.unpublished| == 0 && |emits| == |ticks| && M.ValidTicks(ticks)
    ensures M.Inv(Return(s, e, emits, ticks).store)
  {
    M.StepKeeps(s.store, M.BeginAppend(Stamp(s.agent, e.id, emits), ticks));
  }

  /** Every step leaves the store well formed, and only a returning handler adds to `done`. */
  lemma StepStores(s: State, step: Step)
    requires M.Inv(s.store) && ValidStep(step)
    ensures var s' := Next(s, step);
            && M.Inv(s'.store)
            && (!step.HandlerReturns? ==> s.store.log <= s'.store.log && s'.done == s.done)
  {
    var life := s.life;
    match step {
      case Env(inner) => M.StepLeaves(s.store, inner);
      case StartUp =>
        if life.None? && |s.store.unpublished| == 0 { M.SubscribeKeeps(s.store, s.book.saved, s.p); }
      case Deliver =>
        if life.Some? && life.value.work == Idle && life.value.sub < |s.store.subs| {
          var _ := DeliverChanges(s);
        }
      case HandlerReturns(emits, ticks) =>
        if life.Some? && life.value.work.Handling? && |s.store.unpublished| == 0 && |emits| == |ticks| {
          ReturnStores(s, life.value.work.event, emits, ticks);
        }
      case Retry =>
        if life.Some? && life.value.work.Failed? && |s.store.unpublished| == 0 {
          M.SubscribeKeeps(s.store, life.value.startCursor, s.p);
        }
      case _ =>
    }
  }

  lemma StepRecords(s: State, step: Step)
    requires M.Inv(s.store) && DoneIsEmitted(s) && ValidStep(step)
    ensures M.Inv(Next(s, step).store) && DoneIsEmitted(Next(s, step))
  {
    StepStores(s, step);
    if step.HandlerReturns? && s.life.Some? && s.life.value.work.Handling?
       && |s.store.unpublished| == 0 && |step.emits| == |step.ticks| {
      ReturnRecords(s, s.life.value.work.event, step.emits, step.ticks);
    }
  }

  // ----- "latest" ------------------------------------------------------------------

  /**
   * Every retry resubscribes at the cursor read when the life began.  For "latest" that is a new
   * snapshot: whatever the store does afterwards, the new subscription owes the agent everything
   * appended since its first snapshot of `n` events exactly when no matching event was appended
   * before the retry.
   */
  lemma RetryAtLatest(s: State, n: nat, later: seq<Event>)
    requires M.Inv(s.store) && |s.store.unpublished| == 0
    requires s.life.Some? && s.life.value.work.Failed? && s.life.value.startCursor.Latest?
    requires n <= |s.store.log| && Ordered(s.store.log + later)
    ensures var sub := Next(s, Retry).store.subs[|s.store.subs|];
            var log := s.store.log + later;
            (Select(log, M.WantsOf(sub)) == Select(log[n..], s.p) <==> Select(s.store.log[n..], s.p) == [])
  {
    var sub := M.NewSubscriber(s.store, Latest, s.p);
    assert Next(s, Retry).store.subs[|s.store.subs|] == sub;
    M.LatestOwes(s.store.log, later, n, sub);
  }

  /** So the event the handler failed on is never delivered again in this life. */
  lemma RetryAtLatestSkips(s: State, later: seq<Event>)
    requires M.Inv(s.store) && |s.store.unpublished| == 0
    requires s.life.Some? && s.life.value.work.Failed? && s.life.value.startCursor.Latest?
    requires s.life.value.work.event in s.store.log && Ordered(s.store.log + later)
    ensures var sub := Next(s, Retry).store.subs[|s.store.subs|];
            s.life.value.work.event !in Select(s.store.log + later, M.WantsOf(sub))
  {
    var sub := M.NewSubscriber(s.store, Latest, s.p);
    assert Next(s, Retry).store.subs[|s.store.subs|] == sub;
    M.LatestDrops(s.store.log, later, sub, s.life.value.work.event);
  }

  // ----- a run that skips -----------------------------------------------------------

  lemma RunMore(s: State, steps: seq<Step>, step: Step)
    requires s.store.last >= 0.0
    ensures Run(s, steps + [step]) == Next(Run(s, steps), step)
  {
    assert (steps + [step])[..|steps|] == steps;
  }

  /** An agent starts at "latest", one event is appended and delivered, the handler fails and is retried. */
  function SkippingSteps(input: EventInput, tick: M.Tick): seq<Step> {
    [StartUp, Env(M.BeginAppend([input], [tick])), Env(M.Publish), Deliver, HandlerFails, Retry]
  }

  lemma ThreeSteps(s: State, a: Step, b: Step, c: Step)
    requires s.store.last >= 0.0
    ensures Run(s, [a, b, c]) == Next(Next(Next(s, a), b), c)
  {
    assert [] + [a] == [a] && [a] + [b] == [a, b] && [a, b] + [c] == [a, b, c];
    RunMore(s, [], a);
    RunMore(s, [a], b);
    RunMore(s, [a, b], c);
  }

  /** The first half: the event waits for the agent. */
  lemma OneWaits(store: M.State, agent: string, p: Event -> bool, threshold: int, input: EventInput, tick: M.Tick)
    returns (s: State)
    requires store.last >= 0.0 && |store.unpublished| == 0
    ensures s == Run(Start(store, agent, p, threshold, Latest), SkippingSteps(input, tick)[..3])
    ensures var e := M.OneEvent(store, input, tick);
            && s.store.log == store.log + [e] && s.store.unpublished == [] && s.store.last >= 0.0
            && |s.store.subs| == |store.subs| + 1
            && s.store.subs[|store.subs|] == M.Offer(M.NewSubscriber(store, Latest, p), e)
            && s.life == Some(Life(Latest, |store.subs|, Idle)) && s.done == map[] && s.p == p
  {
    var steps := SkippingSteps(input, tick);
    assert steps[..3] == [StartUp, Env(M.BeginAppend([input], [tick])), Env(M.Publish)];
    s := Run(Start(store, agent, p, threshold, Latest), steps[..3]);
    ThreeSteps(Start(store, agent, p, threshold, Latest), steps[0], steps[1], steps[2]);
    M.OnePublished(M.Join(store, Latest, p), input, tick);
  }

  /** The event is handed over, the handler fails on it, and the agent subscribes again. */
  lemma FailsOnIt(s: State, e: Event)
    requires s.store.last >= 0.0 && |s.store.unpublished| == 0 && s.life.Some? && s.life.value.work == Idle
    requires s.life.value.sub < |s.store.subs| && s.life.value.startCursor.Latest?
    requires var sub := s.store.subs[s.life.value.sub]; sub.got == [] && M.Pull(sub).got == [e]
    ensures Next(s, Deliver).life == Some(s.life.value.(work := Handling(e)))
    ensures var s' := Next(Next(Next(s, Deliver), HandlerFails), Retry);
            && s'.life == Some(Life(Latest, |s.store.subs|, Idle)) && s'.done == s.done && s'.store.log == s.store.log
            && |s'.store.subs| == |s.store.subs| + 1
            && s'.store.subs[|s.store.subs|] == M.NewSubscriber(s.store, Latest, s.p)
  {
  }

  /** An agent that has skipped: idle, caught up, and at "latest" of the log it has. */
  ghost predicate HasSkipped(s: State, log: seq<Event>, p: Event -> bool) {
    && s.store.log == log && s.done == map[]
    && s.life.Some? && s.life.value.work == Idle && s.life.value.sub < |s.store.subs|
    && var sub := s.store.subs[s.life.value.sub];
       && sub.replay == [] && sub.queue == []
       && sub.cursor.Latest? && sub.p == p && sub.snapshotMax == M.SnapshotMax(log)
  }

  /** The second half, as the continuation of a run. */
  lemma FailingSkips(s0: State, before: seq<Step>, s: State, e: Event)
    requires s0.store.last >= 0.0 && s == Run(s0, before)
    requires |s.store.unpublished| == 0 && s.life.Some? && s.life.value.work == Idle
    requires s.life.value.sub < |s.store.subs| && s.life.value.startCursor.Latest? && s.done == map[]
    requires var sub := s.store.subs[s.life.value.sub]; sub.got == [] && M.Pull(sub).got == [e]
    ensures HasSkipped(Run(s0, before + [Deliver] + [HandlerFails] + [Retry]), s.store.log, s.p)
  {
    RunMore(s0, before, Deliver);
    RunMore(s0, before + [Deliver], HandlerFails);
    RunMore(s0, before + [Deliver] + [HandlerFails], Retry);
    FailsOnIt(s, e);
  }

  /** The state after the six steps, when the event passes the agent's live filter. */
  lemma Skipped(store: M.State, agent: string, p: Event -> bool, threshold: int, input: EventInput, tick: M.Tick)
    requires store.last >= 0.0 && |store.unpublished| == 0 && p(M.OneEvent(store, input, tick))
    requires |store.log| > 0 ==> store.log[|store.log| - 1].id < M.OneEvent(store, input, tick).id
    ensures HasSkipped(Run(Start(store, agent, p, threshold, Latest), SkippingSteps(input, tick)),
                       store.log + [M.OneEvent(store, input, tick)], p)
  {
    var e, steps := M.OneEvent(store, input, tick), SkippingSteps(input, tick);
    var s := OneWaits(store, agent, p, threshold, input, tick);
    FailingSkips(Start(store, agent, p, threshold, Latest), steps[..3], s, e);
    assert steps == steps[..3] + [Deliver] + [HandlerFails] + [Retry];
  }

  /**
   * From every store, an agent started at "latest" whose handler fails on the first matching event
   * goes on without it: the event is in the log and not done, nothing is waiting for the agent,
   * and its new subscription never owes it that event, whatever follows.
   */
  lemma AgentMaySkip(store: M.State, agent: string, p: Event -> bool, threshold: int, input: EventInput, tick: M.Tick,
                     later: seq<Event>)
    requires store.last >= 0.0 && |store.unpublished| == 0 && |tick.draw.rand| == 10
    requires p(M.OneEvent(store, input, tick)) && Ordered(store.log + [M.OneEvent(store, input, tick)] + later)
    ensures ValidSteps(SkippingSteps(input, tick))
    ensures var e := M.OneEvent(store, input, tick);
            var s := Run(Start(store, agent, p, threshold, Latest), SkippingSteps(input, tick));
            && e in s.store.log && e.id !in s.done
            && s.life.Some? && s.life.value.work == Idle && s.life.value.sub < |s.store.subs|
            && var sub := s.store.subs[s.life.value.sub];
               sub.replay == [] && sub.queue == [] && e !in Select(s.store.log + later, M.WantsOf(sub))
  {
    var e := M.OneEvent(store, input, tick);
    var all := store.log + [e] + later;
    assert all[|store.log|] == e;
    if |store.log| > 0 { assert all[|store.log| - 1] == store.log[|store.log| - 1]; }
    Skipped(store, agent, p, threshold, input, tick);
    var s := Run(Start(store, agent, p, threshold, Latest), SkippingSteps(input, tick));
    M.LatestDrops(store.log + [e], later, s.store.subs[s.life.value.sub], e);
  }

  // ----- a run that loses -----------------------------------------------------------

  /** `n` publications of the store in a row. */
  function Publishing(n: nat): seq<Step> {
    seq(n, _ => Env(M.Publish))
  }

  lemma {:induction false} StorePublishes(s: State, n: nat)
    requires s.store.last >= 0.0
    ensures Run(s, Publishing(n)) == s.(store := M.Run(s.store, M.Publications(n)))
  {
    if n > 0 {
      StorePublishes(s, n - 1);
      assert Publishing(n)[..n - 1] == Publishing(n - 1) && M.Publications(n)[..n - 1] == M.Publications(n - 1);
    }
  }

  lemma {:induction false} RunConcat(s: State, a: seq<Step>, b: seq<Step>)
    requires s.store.last >= 0.0
    ensures Run(s, a + b) == Run(Run(s, a), b)
  {
    if |b| == 0 {
      assert a + b == a;
    } else {
      assert (a + b)[..|a + b| - 1] == a + b[..|b| - 1];
      RunConcat(s, a, b[..|b| - 1]);
    }
  }

  /** An agent starts up and is busy elsewhere while a batch is published; then it handles one event. */
  function OverrunSteps(inputs: seq<EventInput>, ticks: seq<M.Tick>): seq<Step> {
    [StartUp] + [Env(M.BeginAppend(inputs, ticks))] + Publishing(|inputs|) + [Deliver, HandlerReturns([], []), Finish]
  }

  lemma OverrunStepsValid(inputs: seq<EventInput>, ticks: seq<M.Tick>)
    requires M.ValidTicks(ticks)
    ensures ValidSteps(OverrunSteps(inputs, ticks)) && HandlerFails !in OverrunSteps(inputs, ticks)
  {
  }

  /** The state before the last three steps. */
  function Overrun(store: M.State, agent: string, threshold: int, origin: Cursor,
                   inputs: seq<EventInput>, ticks: seq<M.Tick>): State
    requires store.last >= 0.0
  {
    var s0 := Start(store, agent, M.Anything(), threshold, origin);
    var begun := Next(Next(s0, StartUp), Env(M.BeginAppend(inputs, ticks)));
    Run(begun, Publishing(|inputs|))
  }

  lemma OverrunRuns(store: M.State, agent: string, threshold: int, origin: Cursor,
                    inputs: seq<EventInput>, ticks: seq<M.Tick>)
    requires store.last >= 0.0
    ensures Run(Start(store, agent, M.Anything(), threshold, origin), OverrunSteps(inputs, ticks)) ==
            var s := Overrun(store, agent, threshold, origin, inputs, ticks);
            Next(Next(Next(s, Deliver), HandlerReturns([], [])), Finish)
  {
    var s0, a, b := Start(store, agent, M.Anything(), threshold, origin), StartUp, Env(M.BeginAppend(inputs, ticks));
    assert [] + [a] == [a];
    RunMore(s0, [], a);
    RunMore(s0, [a], b);
    RunConcat(s0, [a] + [b], Publishing(|inputs|));
    RunConcat(s0, [a] + [b] + Publishing(|inputs|), [Deliver, HandlerReturns([], []), Finish]);
    ThreeSteps(Overrun(store, agent, threshold, origin, inputs, ticks), Deliver, HandlerReturns([], []), Finish);
  }

  lemma OverrunBegins(store: M.State, agent: string, threshold: int, origin: Cursor,
                      inputs: seq<EventInput>, ticks: seq<M.Tick>)
    requires store.last >= 0.0 && |store.unpublished| == 0
    ensures var s0 := Start(store, agent, M.Anything(), threshold, origin);
            Next(Next(s0, StartUp), Env(M.BeginAppend(inputs, ticks))) ==
              s0.(store := M.Next(M.Join(store, origin, M.Anything()), M.BeginAppend(inputs, ticks)),
                  life := Some(Life(origin, |store.subs|, Idle)))
  {
  }

  lemma OverrunIs(store: M.State, agent: string, threshold: int, origin: Cursor,
                  inputs: seq<EventInput>, ticks: seq<M.Tick>)
    requires M.Overflowing(store, origin, inputs, ticks)
    ensures var p, es := M.Anything(), M.Mint(store.last, inputs, ticks).0;
            var s := Overrun(store, agent, threshold, origin, inputs, ticks);
            var s0 := Start(store, agent, p, threshold, origin);
            && s == s0.(store := s.store, life := Some(Life(origin, |store.subs|, Idle)))
            && s.store.log == store.log + es && s.store.unpublished == [] && s.store.last >= 0.0
            && |s.store.subs| == |store.subs| + 1
            && s.store.subs[|store.subs|] == M.Backlogged(M.NewSubscriber(store, origin, p), es, |es|)
  {
    var s0 := Start(store, agent, M.Anything(), threshold, origin);
    var begun := Next(Next(s0, StartUp), Env(M.BeginAppend(inputs, ticks)));
    OverrunBegins(store, agent, threshold, origin, inputs, ticks);
    StorePublishes(begun, |inputs|);
    M.IdleLoses(store, origin, inputs, ticks);
  }

  /** One event is handed over, handled without emits, and completed. */
  lemma HandlesNext(s: State, e: Event)
    requires s.store.last >= 0.0 && |s.store.unpublished| == 0
    requires s.life.Some? && s.life.value.work == Idle && s.life.value.sub < |s.store.subs|
    requires var sub := s.store.subs[s.life.value.sub]; M.Pull(sub).got == sub.got + [e]
    ensures Next(Next(Next(s, Deliver), HandlerReturns([], [])), Finish) ==
            s.(store := M.Next(s.store, M.Take(s.life.value.sub)), book := Complete(s.book, e.id, s.threshold),
               done := s.done[e.id := []], completed := s.completed + {e.id})
  {
    var t := Next(s, Deliver);
    assert t.life == Some(s.life.value.(work := Handling(e))) && t.store.log[|t.store.log|..] == [];
    assert s.life == Some(s.life.value.(work := Idle));
  }

  lemma OverrunHandles(store: M.State, agent: string, threshold: int, origin: Cursor,
                       inputs: seq<EventInput>, ticks: seq<M.Tick>)
    requires M.Overflowing(store, origin, inputs, ticks)
    ensures var s, es := Overrun(store, agent, threshold, origin, inputs, ticks), M.Mint(store.last, inputs, ticks).0;
            var t := Next(Next(Next(s, Deliver), HandlerReturns([], [])), Finish);
            && es[0].id < es[1].id && t.store.log == store.log + es && t.p == M.Anything()
            && t.book == Complete(Book(origin, None, 0), es[1].id, threshold)
            && t.done == map[es[1].id := []] && t.completed == {es[1].id}
  {
    OverrunIs(store, agent, threshold, origin, inputs, ticks);
    M.SecondIsNext(store, origin, inputs, ticks);
    HandlesNext(Overrun(store, agent, threshold, origin, inputs, ticks), M.Mint(store.last, inputs, ticks).0[1]);
  }

  /**
   * Without that proviso it can be: from every store there is a run in which a batch of 1025 events
   * overflows the window of an agent that has yet to take any, and the cursor it persists is past
   * a matching event it never handled.
   */
  lemma AgentMayRunAhead(store: M.State, agent: string, origin: Cursor,
                         inputs: seq<EventInput>, ticks: seq<M.Tick>)
    requires M.Overflowing(store, origin, inputs, ticks)
    ensures ValidSteps(OverrunSteps(inputs, ticks))
    ensures var e := M.Mint(store.last, inputs, ticks).0[0];
            var s := Run(Start(store, agent, M.Anything(), 1, origin), OverrunSteps(inputs, ticks));
            && e in s.store.log && AfterCursor(origin, e)
            && s.book.saved.At? && e.id < s.book.saved.id && e.id !in s.done
  {
    OverrunStepsValid(inputs, ticks);
    OverrunRuns(store, agent, 1, origin, inputs, ticks);
    OverrunHandles(store, agent, 1, origin, inputs, ticks);
    M.FirstIsAsked(store, origin, inputs, ticks);
  }

  // ----- what each ending leaves, and that an agent gets there ----------------------

  /** A timer tick and a clean exit persist what is pending; a crash persists nothing. */
  lemma EndingsPersist(s: State)
    requires s.store.last >= 0.0 && s.life.Some?
    ensures s.book.pending.Some? ==>
              && Next(s, TimerFlush).book.saved == At(s.book.pending.value)
              && Next(s, Exit).book.saved == At(s.book.pending.value)
    ensures Next(s, TimerFlush).life == s.life && Next(s, Exit).life.None?
    ensures Next(s, Crash).book.saved == s.book.saved && Next(s, Crash).life.None?
    ensures Next(Next(s, Crash), StartUp).life.Some? ==>
              Next(Next(s, Crash), StartUp).life.value.startCursor == s.book.saved
  {
  }

  /** What the agent does when nothing fails, and publications. */
  predicate GoesWell(step: Step) {
    step == Env(M.Publish) || step == Deliver || step == HandlerReturns([], []) || step == Finish
    || step == Retry || step == StartUp
  }

  /** One event less waits: it was handed over, handled and completed, or not for this agent. */
  lemma WorksOffOne(s: State) returns (steps: seq<Step>)
    requires s.store.last >= 0.0 && |s.store.unpublished| == 0
    requires s.life.Some? && s.life.value.work == Idle && s.life.value.sub < |s.store.subs|
    requires M.Waiting(s.store.subs[s.life.value.sub]) > 0
    ensures forall step :: step in steps ==> GoesWell(step)
    ensures var t, k := Run(s, steps), s.life.value.sub;
            && t.store == M.Next(s.store, M.Take(k)) && t.life == s.life && s.completed <= t.completed
            && forall e :: e in t.store.subs[k].got[|s.store.subs[k].got|..] ==> e.id in t.completed
  {
    var k := s.life.value.sub;
    var handed := M.PullHands(s.store.subs[k]);
    M.TakeMoves(s.store, k);
    if |handed| > 0 {
      steps := [Deliver, HandlerReturns([], []), Finish];
      ThreeSteps(s, Deliver, HandlerReturns([], []), Finish);
      HandlesNext(s, handed[0]);
    } else {
      steps := [Deliver];
      OneStep(s, Deliver);
      assert s.store.subs[k].got + [] == s.store.subs[k].got;
    }
  }

  /** An idle agent completes everything that waits for it. */
  lemma {:induction false} WorksOff(s: State) returns (steps: seq<Step>)
    requires s.store.last >= 0.0 && |s.store.unpublished| == 0
    requires s.life.Some? && s.life.value.work == Idle && s.life.value.sub < |s.store.subs|
    ensures forall step :: step in steps ==> GoesWell(step)
    ensures var t, k := Run(s, steps), s.life.value.sub;
            && t.life == s.life && s.completed <= t.completed && t.store.log == s.store.log
            && k < |t.store.subs| && M.Waiting(t.store.subs[k]) == 0
            && t.store.subs[k].got == M.Held(s.store.subs[k])
            && forall e :: e in t.store.subs[k].got[|s.store.subs[k].got|..] ==> e.id in t.completed
    decreases if s.life.Some? && s.life.value.sub < |s.store.subs| then M.Waiting(s.store.subs[s.life.value.sub]) else 0
  {
    var k := s.life.value.sub;
    if M.Waiting(s.store.subs[k]) == 0 {
      steps := [];
      assert M.Held(s.store.subs[k]) == s.store.subs[k].got;
    } else {
      var first := WorksOffOne(s);
      var t := Run(s, first);
      M.TakeMoves(s.store, k);
      M.PullHolds(s.store.subs[k]);
      var rest := WorksOff(t);
      steps := first + rest;
      RunConcat(s, first, rest);
      MoreCompleted(s, t, Run(s, steps), k);
    }
  }

  /** What is completed in two parts is completed. */
  lemma MoreCompleted(s: State, t: State, u: State, k: nat)
    requires k < |s.store.subs| && k < |t.store.subs| && k < |u.store.subs|
    requires s.store.subs[k].got <= t.store.subs[k].got <= u.store.subs[k].got && t.completed <= u.completed
    requires forall e :: e in t.store.subs[k].got[|s.store.subs[k].got|..] ==> e.id in t.completed
    requires forall e :: e in u.store.subs[k].got[|t.store.subs[k].got|..] ==> e.id in u.completed
    ensures forall e :: e in u.store.subs[k].got[|s.store.subs[k].got|..] ==> e.id in u.completed
  {
    GotSplits(s.store.subs[k].got, t.store.subs[k].got, u.store.subs[k].got);
  }

  /** An agent with nothing in hand, its subscription known. */
  ghost predicate IsIdle(s: State) {
    s.life.Some? && s.life.value.work == Idle && s.life.value.sub < |s.store.subs|
  }

  lemma OneStep(s: State, a: Step)
    requires s.store.last >= 0.0
    ensures Run(s, [a]) == Next(s, a)
  {
    assert [] + [a] == [a];
    RunMore(s, [], a);
  }

  lemma TwoSteps(s: State, a: Step, b: Step)
    requires s.store.last >= 0.0
    ensures Run(s, [a, b]) == Next(Next(s, a), b)
  {
    assert [] + [a] == [a] && [a] + [b] == [a, b];
    RunMore(s, [], a);
    RunMore(s, [a], b);
  }

  /** Whatever an agent is at, it gets back to waiting, and completes the event it was handling. */
  lemma BecomesIdle(s: State) returns (steps: seq<Step>)
    requires s.store.last >= 0.0 && |s.store.unpublished| == 0
    requires s.life.Some? ==> s.life.value.sub < |s.store.subs|
    ensures forall step :: step in steps ==> GoesWell(step)
    ensures var t := Run(s, steps);
            && IsIdle(t) && t.store.unpublished == [] && t.store.log == s.store.log && s.completed <= t.completed
            && (s.life.Some? && (s.life.value.work.Handling? || s.life.value.work.Emitted?) ==>
                  s.life.value.work.event.id in t.completed)
  {
    if s.life.None? {
      steps := [StartUp];
      OneStep(s, StartUp);
    } else {
      match s.life.value.work {
        case Idle => steps := [];
        case Handling(_) =>
          steps := [HandlerReturns([], []), Finish];
          TwoSteps(s, HandlerReturns([], []), Finish);
        case Emitted(_) =>
          steps := [Finish];
          OneStep(s, Finish);
        case Failed(_) =>
          steps := [Retry];
          OneStep(s, Retry);
      }
    }
  }

  /**
   * No agent is ever stuck: from every state, running or not, some steps all of which go well lead
   * to where it is idle, nothing waits for it, and it has completed what was waiting.
   */
  lemma NeverStuck(s: State) returns (steps: seq<Step>)
    requires s.store.last >= 0.0 && (s.life.Some? ==> s.life.value.sub < |s.store.subs|)
    ensures forall step :: step in steps ==> GoesWell(step)
    ensures var t := Run(s, steps);
            && IsIdle(t) && M.Waiting(t.store.subs[t.life.value.sub]) == 0
            && t.store.log == s.store.log && s.completed <= t.completed
            && (s.life.Some? && (s.life.value.work.Handling? || s.life.value.work.Emitted?) ==>
                  s.life.value.work.event.id in t.completed)
  {
    var n := |s.store.unpublished|;
    StorePublishes(s, n);
    M.PublicationsEmpty(s.store, n);
    var published := Run(s, Publishing(n));
    var idle := BecomesIdle(published);
    var rest := WorksOff(Run(published, idle));
    steps := Publishing(n) + idle + rest;
    RunConcat(s, Publishing(n), idle);
    RunConcat(s, Publishing(n) + idle, rest);
  }

  lemma GotSplits(a: seq<Event>, b: seq<Event>, c: seq<Event>)
    requires a <= b <= c
    ensures c[|a|..] == b[|a|..] + c[|b|..]
  {
  }

  // ----- causality -----------------------------------------------------------------

  function Causes(causedBy: Option<seq<nat>>): seq<nat> {
    if causedBy.Some? then causedBy.value else []
  }

  ghost predicate Known(log: seq<Event>, id: nat) {
    exists i :: 0 <= i < |log| && log[i].id == id
  }

  /** Every cause of every event is the id of an earlier event. */
  ghost predicate CitesEarlier(log: seq<Event>) {
    forall i, c :: 0 <= i < |log| && c in Causes(log[i].causedBy) ==> Known(log[..i], c)
  }

  ghost predicate CitesKnown(log: seq<Event>, inputs: seq<EventInput>) {
    forall i, c :: 0 <= i < |inputs| && c in Causes(inputs[i].causedBy) ==> Known(log, c)
  }

  lemma AppendCitesEarlier(log: seq<Event>, es: seq<Event>)
    requires CitesEarlier(log)
    requires forall i, c :: 0 <= i < |es| && c in Causes(es[i].causedBy) ==> Known(log, c)
    ensures CitesEarlier(log + es)
  {
    var all := log + es;
    forall i, c | 0 <= i < |all| && c in Causes(all[i].causedBy) ensures Known(all[..i], c) {
      if i < |log| {
        assert all[i] == log[i] && all[..i] == log[..i];
      } else {
        var k := i - |log|;
        assert all[i] == es[k] && c in Causes(es[k].causedBy);
        assert Known(log, c);
        var j :| 0 <= j < |log| && log[j].id == c;
        assert all[..i][j].id == c;
      }
    }
  }

  /** Inputs from elsewhere cite only events already in the log when they are appended. */
  ghost predicate StepCites(s: State, step: Step) {
    step.Env? && step.step.BeginAppend? ==> CitesKnown(s.store.log, step.step.inputs)
  }

  ghost predicate CausalInv(s: State) {
    && M.Inv(s.store)
    && (s.store.last.Floor < Ulid.STAMP_LIMIT ==>
          && CitesEarlier(s.store.log)
          && (s.life.Some? && s.life.value.work != Idle ==> s.life.value.work.event in s.store.log))
  }

  lemma AppendCausal(store: M.State, inputs: seq<EventInput>, ticks: seq<M.Tick>)
    requires M.Inv(store) && M.ValidTicks(ticks) && CitesEarlier(store.log) && CitesKnown(store.log, inputs)
    ensures CitesEarlier(M.Next(store, M.BeginAppend(inputs, ticks)).log)
  {
    if |store.unpublished| == 0 && |inputs| == |ticks| {
      M.MintKeepsInputs(store.last, inputs, ticks);
      AppendCitesEarlier(store.log, M.Mint(store.last, inputs, ticks).0);
    }
  }

  lemma StampCites(log: seq<Event>, agent: string, e: Event, emits: seq<EventInput>)
    requires e in log
    ensures CitesKnown(log, Stamp(agent, e.id, emits))
  {
    var i :| 0 <= i < |log| && log[i] == e;
    assert Known(log, e.id);
  }

  lemma ReturnCausal(s: State, e: Event, emits: seq<EventInput>, ticks: seq<M.Tick>)
    requires CausalInv(s) && s.life.Some? && s.life.value.work == Handling(e)
    requires |s.store.unpublished| == 0 && |emits| == |ticks| && M.ValidTicks(ticks)
    ensures CausalInv(Return(s, e, emits, ticks))
  {
    if |emits| > 0 {
      var stamped := Stamp(s.agent, e.id, emits);
      M.StepLeaves(s.store, M.BeginAppend(stamped, ticks));
      if Return(s, e, emits, ticks).store.last.Floor < Ulid.STAMP_LIMIT {
        StampCites(s.store.log, s.agent, e, emits);
        AppendCausal(s.store, stamped, ticks);
      }
    }
  }

  /** What a subscription has handed out is in the log. */
  lemma GotInLog(store: M.State, k: nat)
    requires M.Inv(store) && store.last.Floor < Ulid.STAMP_LIMIT && k < |store.subs|
    ensures forall e :: e in store.subs[k].got ==> e in store.log
  {
    var sub := store.subs[k];
    assert M.SubInv(store.log, M.Published(store), sub);
    forall e | e in sub.got ensures e in store.log { assert e in M.Held(sub); }
  }

  lemma DeliverCausal(s: State)
    requires CausalInv(s) && s.life.Some? && s.life.value.work == Idle && s.life.value.sub < |s.store.subs|
    ensures CausalInv(DeliverOne(s))
  {
    var handed := DeliverChanges(s);
    var s', k := DeliverOne(s), s.life.value.sub;
    if s.store.last.Floor < Ulid.STAMP_LIMIT && |handed| > 0 {
      GotInLog(s'.store, k);
      assert handed[0] in s'.store.subs[k].got;
    }
  }

  lemma EnvCausal(s: State, step: M.Step)
    requires CausalInv(s) && M.ValidStep(step)
    requires step.BeginAppend? ==> CitesKnown(s.store.log, step.inputs)
    ensures CausalInv(s.(store := M.Next(s.store, step)))
  {
    M.StepLeaves(s.store, step);
    if step.BeginAppend? && s.store.last.Floor < Ulid.STAMP_LIMIT {
      AppendCausal(s.store, step.inputs, step.ticks);
    }
  }

  lemma StepCausal(s: State, step: Step)
    requires CausalInv(s) && ValidStep(step) && StepCites(s, step)
    ensures CausalInv(Next(s, step))
  {
    var life := s.life;
    match step {
      case Env(inner) =>
        if !(life.Some? && inner == M.Take(life.value.sub)) {
          EnvCausal(s, inner);
        }
      case StartUp =>
        if life.None? && |s.store.unpublished| == 0 { M.SubscribeKeeps(s.store, s.book.saved, s.p); }
      case Deliver =>
        if life.Some? && life.value.work == Idle && life.value.sub < |s.store.subs| { DeliverCausal(s); }
      case HandlerReturns(emits, ticks) =>
        if life.Some? && life.value.work.Handling? && |s.store.unpublished| == 0 && |emits| == |ticks| {
          ReturnCausal(s, life.value.work.event, emits, ticks);
        }
      case HandlerFails =>
      case Retry =>
        if life.Some? && life.value.work.Failed? && |s.store.unpublished| == 0 {
          M.SubscribeKeeps(s.store, life.value.startCursor, s.p);
        }
      case Finish =>
      case TimerFlush =>
      case Exit =>
      case Crash =>
    }
  }

  // ----- several agents -----------------------------------------------------------

  /** Any number of agents on one store; an agent's own copy of the store is not looked at. */
  datatype Fleet = Fleet(store: M.State, agents: map<string, State>)

  datatype FleetStep = Outside(inner: M.Step) | Act(agent: string, step: Step)

  function Seen(f: Fleet, agent: string): State
    requires agent in f.agents
  {
    f.agents[agent].(store := f.store)
  }

  /** A take of some agent's own subscription. */
  predicate TakesForAgent(f: Fleet, step: M.Step) {
    step.Take? && exists a | a in f.agents :: f.agents[a].life.Some? && f.agents[a].life.value.sub == step.i
  }

  /** Inputs from outside, where nobody takes from an agent's subscription, or one agent's own step. */
  function FleetNext(f: Fleet, step: FleetStep): (r: Fleet)
    requires f.store.last >= 0.0
    ensures r.store.last >= f.store.last && r.agents.Keys == f.agents.Keys
  {
    match step
    case Outside(inner) => if TakesForAgent(f, inner) then f else f.(store := M.Next(f.store, inner))
    case Act(agent, inner) =>
      if agent !in f.agents || inner.Env? then f
      else
        var after := Next(Seen(f, agent), inner);
        Fleet(after.store, f.agents[agent := after])
  }

  function FleetRun(f: Fleet, steps: seq<FleetStep>): (r: Fleet)
    requires f.store.last >= 0.0
    ensures r.store.last >= f.store.last && r.agents.Keys == f.agents.Keys
  {
    if |steps| == 0 then f else FleetNext(FleetRun(f, steps[..|steps| - 1]), steps[|steps| - 1])
  }

  /** Inputs that come from no agent cite only events already in the log. */
  ghost predicate FleetStepCites(f: Fleet, step: FleetStep) {
    match step
    case Outside(inner) => M.ValidStep(inner) && (inner.BeginAppend? ==> CitesKnown(f.store.log, inner.inputs))
    case Act(_, inner) => ValidStep(inner)
  }

  ghost predicate FleetStepsCite(f: Fleet, steps: seq<FleetStep>)
    requires f.store.last >= 0.0
  {
    forall k :: 0 <= k < |steps| ==> FleetStepCites(FleetRun(f, steps[..k]), steps[k])
  }

  ghost predicate FleetCausal(f: Fleet) {
    && M.Inv(f.store)
    && (f.store.last.Floor < Ulid.STAMP_LIMIT ==> CitesEarlier(f.store.log))
    && forall a :: a in f.agents ==> CausalInv(Seen(f, a))
  }

  lemma LogStays(s: State, step: Step)
    requires M.Inv(s.store) && ValidStep(step)
    ensures s.store.log <= Next(s, step).store.log
  {
    StepStores(s, step);
    if step.HandlerReturns? && s.life.Some? && s.life.value.work.Handling?
       && |s.store.unpublished| == 0 && |step.emits| == |step.ticks| {
      ReturnEmits(s, s.life.value.work.event, step.emits, step.ticks);
    }
  }

  lemma OutsideCausal(f: Fleet, step: M.Step)
    requires FleetCausal(f) && FleetStepCites(f, Outside(step)) && !TakesForAgent(f, step)
    ensures FleetCausal(FleetNext(f, Outside(step)))
  {
    var store := M.Next(f.store, step);
    M.StepLeaves(f.store, step);
    if step.BeginAppend? && f.store.last.Floor < Ulid.STAMP_LIMIT { AppendCausal(f.store, step.inputs, step.ticks); }
    forall a | a in f.agents ensures CausalInv(f.agents[a].(store := store)) {
      assert CausalInv(Seen(f, a));
    }
  }

  lemma ActCausal(f: Fleet, agent: string, step: Step)
    requires FleetCausal(f) && ValidStep(step) && agent in f.agents && !step.Env?
    ensures FleetCausal(FleetNext(f, Act(agent, step)))
  {
    var s := Seen(f, agent);
    var after := Next(s, step);
    StepCausal(s, step);
    LogStays(s, step);
    var f' := FleetNext(f, Act(agent, step));
    forall a | a in f'.agents ensures CausalInv(Seen(f', a)) {
      assert a != agent ==> CausalInv(Seen(f, a));
    }
  }

  lemma FleetStepCausal(f: Fleet, step: FleetStep)
    requires FleetCausal(f) && FleetStepCites(f, step)
    ensures FleetCausal(FleetNext(f, step))
  {
    match step {
      case Outside(inner) => if !TakesForAgent(f, inner) { OutsideCausal(f, inner); }
      case Act(agent, inner) => if agent in f.agents && !inner.Env? { ActCausal(f, agent, inner); }
    }
  }

  lemma {:induction false} FleetRunCausal(f: Fleet, steps: seq<FleetStep>)
    requires FleetCausal(f) && FleetStepsCite(f, steps)
    ensures FleetCausal(FleetRun(f, steps))
  {
    if |steps| > 0 {
      var n := |steps| - 1;
      var init := steps[..n];
      forall k | 0 <= k < n ensures FleetStepCites(FleetRun(f, init[..k]), init[k]) {
        assert init[..k] == steps[..k];
      }
      FleetRunCausal(f, init);
      assert FleetStepCites(FleetRun(f, init), steps[n]);
      FleetStepCausal(FleetRun(f, init), steps[n]);
    }
  }

  /**
   * Causality is well founded for any number of agents: whatever each of them emits, fails on and
   * restarts, as long as inputs that come from no agent cite only events already in the log, every
   * cause has a strictly smaller id than its effect.
   */
  lemma FleetCausesAreSmaller(f: Fleet, steps: seq<FleetStep>)
    requires FleetCausal(f) && FleetStepsCite(f, steps) && FleetRun(f, steps).store.last.Floor < Ulid.STAMP_LIMIT
    ensures forall e, c :: e in FleetRun(f, steps).store.log && c in Causes(e.causedBy) ==> c < e.id
  {
    FleetRunCausal(f, steps);
    var log := FleetRun(f, steps).store.log;
    forall e, c | e in log && c in Causes(e.causedBy) ensures c < e.id {
      var i :| 0 <= i < |log| && log[i] == e;
    }
  }

  /** A fresh deployment on an empty store. */
  lemma FreshFleetIsCausal(agents: map<string, State>)
    requires forall a :: a in agents ==> agents[a].life.None?
    ensures FleetCausal(Fleet(M.INIT, agents))
  {
    M.InitInv();
  }
}

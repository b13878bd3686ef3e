/**
 * How much a crash can repeat (packages/runtime/src/Supervisor.ts): without handler failures, the
 * events an agent has completed past its persisted cursor stay below the flush threshold, across
 * any number of restarts.
 */
module Repeats {
  import opened Wrappers
  import opened Events
  import opened Supervisor
  import M = MemoryStore
  import Ulid

  function Bound(threshold: int): nat {
    if threshold >= 1 then threshold - 1 else 0
  }

  /** What the agent has been handed and, but for the event at hand, completed in this life. */
  function Finished(got: seq<Event>, work: Work): seq<Event> {
    if work.Idle? || |got| == 0 then got else got[..|got| - 1]
  }

  /** The first `k` events after the persisted cursor are completed, and no later ones. */
  ghost predicate Ahead(owed: seq<Event>, completed: set<nat>, k: nat) {
    k <= |owed| && forall i :: 0 <= i < |owed| ==> (owed[i].id in completed <==> i < k)
  }

  /** This life's share of the bookkeeping: what it has finished, and what of that is flushed. */
  ghost predicate Counted(start: Cursor, finished: seq<Event>, b: Book) {
    && b.count <= |finished|
    && b.saved == Position(start, finished[..|finished| - b.count])
    && b.pending == if |finished| == 0 then None else Some(finished[|finished| - 1].id)
  }

  /** Where a subscription starts: "latest" is right after the last event of its snapshot. */
  function Effective(sub: M.Subscriber): (c: Cursor)
    ensures !c.Latest?
  {
    if !sub.cursor.Latest? then sub.cursor
    else if sub.snapshotMax.Some? then At(sub.snapshotMax.value)
    else Earliest
  }

  /**
   * The cursor that counts: the persisted one, or where this life started while that is "latest".
   * Between lives "latest" is itself, and nothing is after it.
   */
  function Base(s: State): Cursor {
    if s.book.saved.Latest? && s.life.Some? && s.life.value.sub < |s.store.subs|
    then Effective(s.store.subs[s.life.value.sub])
    else s.book.saved
  }

  function Booked(s: State): Book {
    s.book.(saved := Base(s))
  }

  ghost predicate LifeInv(s: State)
    requires s.store.last >= 0.0 && s.life.Some?
  {
    var life := s.life.value;
    && life.sub < |s.store.subs| && !life.work.Failed?
    && var sub := s.store.subs[life.sub];
       && M.Below(Effective(sub), s.store) && sub.cursor == life.startCursor && sub.p == s.p && M.Covered(sub)
       && (!life.work.Idle? ==> |sub.got| > 0 && sub.got[|sub.got| - 1] == life.work.event)
       && Counted(Effective(sub), Finished(sub.got, life.work), Booked(s))
  }

  /** The cursor is "latest" or names nothing the store has yet to mint. */
  ghost predicate Reached(c: Cursor, store: M.State)
    requires store.last >= 0.0
  {
    c.Latest? || M.Below(c, store)
  }

  ghost predicate Inv(s: State, k: nat) {
    && M.Inv(s.store)
    && (s.life.Some? ==> s.life.value.sub < |s.store.subs|)
    && (s.store.last.Floor < Ulid.STAMP_LIMIT && Gapless(s) ==>
          && Reached(Base(s), s.store)
          && Ahead(Rest(s.store.log, Base(s), s.p), s.completed, k)
          && k <= Bound(s.threshold)
          && (forall id :: id in s.completed ==> id < M.IdFloor(s.store.last.Floor + 1))
          && (s.life.Some? ==> LifeInv(s) && s.book.count <= k))
  }

  /**
   * What is completed past the cursor that counts is what this life has counted since its last
   * flush, and nothing between lives: no crash has left anything behind.
   */
  ghost predicate Even(s: State, k: nat) {
    s.store.last.Floor < Ulid.STAMP_LIMIT && Gapless(s) ==> k == if s.life.Some? then s.book.count else 0
  }

  /** A subscription asks for what comes after its effective start. */
  lemma WantsEffective(log: seq<Event>, sub: M.Subscriber)
    ensures Select(log, M.WantsOf(sub)) == Rest(log, Effective(sub), sub.p)
  {
    SelectAgree(log, M.WantsOf(sub), Wants(Effective(sub), sub.p));
  }

  /** Nothing is after "latest". */
  lemma NothingAfterLatest(log: seq<Event>, p: Event -> bool)
    ensures Rest(log, Latest, p) == []
  {
    SelectNone(log, Wants(Latest, p));
  }

  /** New events are past everything completed. */
  lemma StoreGrows(s: State, s': State, c: Cursor, k: nat)
    requires M.Inv(s.store) && M.Inv(s'.store) && M.Extends(s.store, s'.store)
    requires s'.store.last.Floor < Ulid.STAMP_LIMIT
    requires s'.p == s.p && s'.completed == s.completed
    requires Reached(c, s.store) && Ahead(Rest(s.store.log, c, s.p), s.completed, k)
    requires forall id :: id in s.completed ==> id < M.IdFloor(s.store.last.Floor + 1)
    ensures Reached(c, s'.store) && Ahead(Rest(s'.store.log, c, s'.p), s'.completed, k)
    ensures forall id :: id in s'.completed ==> id < M.IdFloor(s'.store.last.Floor + 1)
  {
    var log, log' := s.store.log, s'.store.log;
    if !c.Latest? { M.BelowStays(c, s.store, s'.store); }
    M.IdFloorMonotone(s.store.last.Floor + 1, s'.store.last.Floor + 1);
    RestGrows(log, log', c, s.p);
    var extra := Rest(log'[|log|..], c, s.p);
    forall i | 0 <= i < |extra| ensures extra[i].id !in s.completed {
      SelectMember(log'[|log|..], Wants(c, s.p), extra[i]);
      var j :| 0 <= j < |log'[|log|..]| && log'[|log|..][j] == extra[i];
      assert log'[|log| + j] == extra[i];
    }
  }

  /** The same life: its subscription on the same terms, and no event finished more. */
  ghost predicate SameLife(s: State, s': State)
    requires s.life.Some? && s'.life.Some?
  {
    var life, life' := s.life.value, s'.life.value;
    && life'.startCursor == life.startCursor && life'.sub == life.sub
    && s'.book == s.book && s'.p == s.p
    && life.sub < |s.store.subs| && life.sub < |s'.store.subs|
    && var sub, sub' := s.store.subs[life.sub], s'.store.subs[life.sub];
       && sub'.cursor == sub.cursor && sub'.p == sub.p && sub'.floor == sub.floor && sub'.snapshotMax == sub.snapshotMax
       && Finished(sub'.got, life'.work) == Finished(sub.got, life.work)
       && !life'.work.Failed?
       && (!life'.work.Idle? ==> |sub'.got| > 0 && sub'.got[|sub'.got| - 1] == life'.work.event)
  }

  lemma LifeStays(s: State, s': State)
    requires s.life.Some? && s'.life.Some? && SameLife(s, s')
    requires 0.0 <= s.store.last <= s'.store.last && LifeInv(s)
    ensures LifeInv(s') && Base(s') == Base(s)
  {
    M.BelowStays(Effective(s.store.subs[s.life.value.sub]), s.store, s'.store);
  }

  /** The store moves on and the life, if there is one, goes on. */
  ghost predicate GoesOn(s: State, s': State)
    requires s.store.last >= 0.0
  {
    && M.Extends(s.store, s'.store) && s'.threshold == s.threshold && s'.p == s.p
    && s'.book == s.book && s'.completed == s.completed
    && (Gapless(s') ==> Gapless(s))
    && s'.life.Some? == s.life.Some?
    && (s.life.Some? ==> s'.life.value.sub < |s'.store.subs|)
  }

  lemma GoesOnKeeps(s: State, s': State, k: nat)
    requires Inv(s, k) && M.Inv(s'.store) && GoesOn(s, s')
    requires s'.store.last.Floor < Ulid.STAMP_LIMIT && Gapless(s') && s.life.Some? ==> SameLife(s, s')
    ensures Inv(s', k) && (Even(s, k) ==> Even(s', k))
  {
    if s'.store.last.Floor < Ulid.STAMP_LIMIT && Gapless(s') {
      StoreGrows(s, s', Base(s), k);
      if s.life.Some? { LifeStays(s, s'); }
    }
  }

  lemma EnvKeeps(s: State, k: nat, step: M.Step)
    requires Inv(s, k) && M.ValidStep(step) && !(s.life.Some? && step == M.Take(s.life.value.sub))
    ensures var s' := s.(store := M.Next(s.store, step)); Inv(s', k) && (Even(s, k) ==> Even(s', k))
  {
    var s' := s.(store := M.Next(s.store, step));
    M.StepLeaves(s.store, step);
    if s.life.Some? { assert M.SameSub(s.store.subs[s.life.value.sub], s'.store.subs[s.life.value.sub]); }
    GoesOnKeeps(s, s', k);
  }

  /** A new subscription has nothing owed yet from its effective start if that is "latest". */
  lemma JoinedAtLatest(store: M.State, p: Event -> bool)
    requires M.Inv(store) && store.last.Floor < Ulid.STAMP_LIMIT
    ensures var sub := M.NewSubscriber(store, Latest, p);
            Rest(store.log, Effective(sub), p) == [] && M.Below(Effective(sub), store)
  {
    var sub := M.NewSubscriber(store, Latest, p);
    assert store.log + [] == store.log;
    M.LatestWants(store.log, [], sub);
    WantsEffective(store.log, sub);
  }

  lemma StartUpIs(s: State)
    requires M.Inv(s.store) && s.life.None? && |s.store.unpublished| == 0
    ensures var s', sub := Next(s, StartUp), M.NewSubscriber(s.store, s.book.saved, s.p);
            && M.Inv(s'.store) && s'.store.log == s.store.log && s'.store.last == s.store.last
            && |s'.store.subs| == |s.store.subs| + 1 && s'.store.subs[|s.store.subs|] == sub
            && s' == s.(store := s'.store, book := Reopen(s.book),
                        life := Some(Life(s.book.saved, |s.store.subs|, Idle)))
            && Base(s') == Effective(sub)
  {
    M.SubscribeKeeps(s.store, s.book.saved, s.p);
  }

  /** What a new life is owed, and that none of it is completed. */
  lemma NewLife(s: State, k: nat) returns (k': nat)
    requires Inv(s, k) && s.life.None? && s.store.last.Floor < Ulid.STAMP_LIMIT && Gapless(s)
    ensures var sub := M.NewSubscriber(s.store, s.book.saved, s.p);
            && M.Below(Effective(sub), s.store) && M.Covered(sub) && k' <= Bound(s.threshold)
            && Ahead(Rest(s.store.log, Effective(sub), s.p), s.completed, k') && k' <= k
  {
    k' := if s.book.saved.Latest? then 0 else k;
    if s.book.saved.Latest? { JoinedAtLatest(s.store, s.p); }
  }

  lemma StartUpKeeps(s: State, k: nat) returns (k': nat)
    requires Inv(s, k) && s.life.None? && |s.store.unpublished| == 0
    ensures Inv(Next(s, StartUp), k') && (Even(s, k) ==> Even(Next(s, StartUp), k'))
  {
    k' := k;
    StartUpIs(s);
    if s.store.last.Floor < Ulid.STAMP_LIMIT && Gapless(s) { k' := NewLife(s, k); }
  }

  /** Without a life the persisted cursor is all that counts. */
  lemma LeaveKeeps(s: State, k: nat) returns (k': nat)
    requires Inv(s, k)
    ensures Inv(Leave(s), k') && k' <= k
  {
    k' := if s.book.saved.Latest? then 0 else k;
    if s.book.saved.Latest? { NothingAfterLatest(s.store.log, s.p); }
  }

  lemma DeliverKeeps(s: State, k: nat)
    requires Inv(s, k) && s.life.Some? && s.life.value.work == Idle
    ensures Inv(DeliverOne(s), k) && (Even(s, k) ==> Even(DeliverOne(s), k))
  {
    var handed := DeliverChanges(s);
    FinishedStays(s.store.subs[s.life.value.sub].got, handed);
    GoesOnKeeps(s, DeliverOne(s), k);
  }

  lemma FinishedStays(got: seq<Event>, handed: seq<Event>)
    requires |handed| <= 1
    ensures Finished(got + handed, if |handed| > 0 then Handling(handed[0]) else Idle) == Finished(got, Idle)
    ensures |handed| > 0 ==> |got + handed| > 0 && (got + handed)[|got + handed| - 1] == handed[0]
  {
    if |handed| > 0 { assert (got + handed)[..|got|] == got; }
  }

  lemma ReturnKeeps(s: State, k: nat, e: Event, emits: seq<EventInput>, ticks: seq<M.Tick>)
    requires Inv(s, k) && s.life.Some? && s.life.value.work == Handling(e)
    requires |s.store.unpublished| == 0 && |emits| == |ticks| && M.ValidTicks(ticks)
    ensures var s' := Return(s, e, emits, ticks); Inv(s', k) && (Even(s, k) ==> Even(s', k))
  {
    ReturnChanges(s, e, emits, ticks);
    GoesOnKeeps(s, Return(s, e, emits, ticks), k);
  }

  // ----- moving the persisted cursor ----------------------------------------------

  /** What the life's subscription was handed is a prefix of what it asked for. */
  lemma GotIsOwed(s: State, k: nat)
    requires Inv(s, k) && s.life.Some? && s.store.last.Floor < Ulid.STAMP_LIMIT && Gapless(s)
    ensures var sub := s.store.subs[s.life.value.sub];
            sub.got <= Rest(s.store.log, Effective(sub), s.p)
  {
    var got := s.store.subs[s.life.value.sub].got;
    M.HandedUpToGap(s.store, s.life.value.sub, |got|);
    assert got[..|got|] == got;
    WantsEffective(s.store.log, s.store.subs[s.life.value.sub]);
  }

  /** The events owed after the persisted cursor, as a tail of what the life asked for. */
  lemma OwedFrom(log: seq<Event>, start: Cursor, p: Event -> bool, x: seq<Event>)
    requires Ordered(log) && x <= Rest(log, start, p)
    ensures Rest(log, Position(start, x), p) == Rest(log, start, p)[|x|..]
    ensures Ordered(Rest(log, start, p))
  {
    RestAt(log, start, p, x);
    SelectOrdered(log, Wants(start, p));
  }

  lemma AheadTail(owed: seq<Event>, completed: set<nat>, k: nat, n: nat) returns (k': nat)
    requires Ahead(owed, completed, k) && n <= |owed|
    ensures k' == (if k >= n then k - n else 0) && Ahead(owed[n..], completed, k')
  {
    k' := if k >= n then k - n else 0;
  }

  lemma AheadOneMore(owed: seq<Event>, completed: set<nat>, k: nat, n: nat) returns (k': nat)
    requires Ahead(owed, completed, k) && n <= k && n < |owed| && Ordered(owed)
    ensures k' == (if k > n then k else n + 1) && Ahead(owed, completed + {owed[n].id}, k')
  {
    k' := if k > n then k else n + 1;
  }

  lemma FlushCounts(log: seq<Event>, start: Cursor, p: Event -> bool, finished: seq<Event>, b: Book,
                    completed: set<nat>, k: nat) returns (k': nat)
    requires Ordered(log) && finished <= Rest(log, start, p) && Counted(start, finished, b)
    requires Ahead(Rest(log, b.saved, p), completed, k)
    ensures Ahead(Rest(log, Flush(b).saved, p), completed, k') && k' == if k >= b.count then k - b.count else 0
    ensures Counted(start, finished, Flush(b)) && Flush(b).count == 0 && Flush(b).saved == Position(start, finished)
  {
    var owed, n := Rest(log, start, p), b.count;
    OwedFrom(log, start, p, finished[..|finished| - n]);
    OwedFrom(log, start, p, finished);
    k' := AheadTail(owed[|finished| - n..], completed, k, n);
    assert owed[|finished| - n..][n..] == owed[|finished|..];
    FlushCounted(start, finished, b);
  }

  lemma FlushCounted(start: Cursor, finished: seq<Event>, b: Book)
    requires Counted(start, finished, b)
    ensures Counted(start, finished, Flush(b)) && Flush(b).count == 0 && Flush(b).saved == Position(start, finished)
  {
    assert finished[..|finished|] == finished;
    if |finished| == 0 { assert b.count == 0; }
  }

  lemma FlushKeeps(s: State, k: nat) returns (k': nat)
    requires Inv(s, k) && s.life.Some?
    ensures Inv(s.(book := Flush(s.book)), k') && k' <= k
    ensures s.store.last.Floor < Ulid.STAMP_LIMIT && Gapless(s) ==> k' == k - s.book.count
  {
    k' := k;
    var s' := s.(book := Flush(s.book));
    if s.store.last.Floor < Ulid.STAMP_LIMIT && Gapless(s) {
      var sub := s.store.subs[s.life.value.sub];
      var finished := Finished(sub.got, s.life.value.work);
      GotIsOwed(s, k);
      k' := FlushCounts(s.store.log, Effective(sub), s.p, finished, Booked(s), s.completed, k);
      PositionBelow(s.store, Effective(sub), s.p, finished);
    }
  }

  lemma PositionBelow(store: M.State, start: Cursor, p: Event -> bool, x: seq<Event>)
    requires M.Inv(store) && store.last.Floor < Ulid.STAMP_LIMIT
    requires M.Below(start, store) && x <= Rest(store.log, start, p)
    ensures M.Below(Position(start, x), store)
  {
    if |x| > 0 {
      SelectMember(store.log, Wants(start, p), x[|x| - 1]);
      assert x[|x| - 1] in Rest(store.log, start, p);
    }
  }

  /** Completing the next owed event, with `n` counted before it. */
  lemma FinishAhead(owed: seq<Event>, got: seq<Event>, n: nat, completed: set<nat>, k: nat, threshold: int)
    returns (k': nat)
    requires Ordered(owed) && got <= owed && n < |got| && n <= k <= Bound(threshold)
    requires Ahead(owed[|got| - 1 - n..], completed, k)
    ensures k' <= Bound(threshold) && (k == n ==> k' == if n + 1 >= threshold then 0 else n + 1)
    ensures var after := completed + {got[|got| - 1].id};
            if n + 1 >= threshold then Ahead(owed[|got|..], after, k')
            else n + 1 <= k' && Ahead(owed[|got| - 1 - n..], after, k')
  {
    var tail := owed[|got| - 1 - n..];
    assert tail[n] == got[|got| - 1];
    k' := AheadOneMore(tail, completed, k, n);
    if n + 1 >= threshold {
      k' := AheadTail(tail, completed + {tail[n].id}, k', n + 1);
      assert tail[n + 1..] == owed[|got|..];
    }
  }

  /** The bookkeeping before and after `onEvent` ends, as positions in what the life asked for. */
  lemma FinishBook(log: seq<Event>, start: Cursor, p: Event -> bool, got: seq<Event>, b: Book, threshold: int)
    requires Ordered(log) && |got| > 0 && got <= Rest(log, start, p) && Counted(start, got[..|got| - 1], b)
    ensures var owed, b' := Rest(log, start, p), Complete(b, got[|got| - 1].id, threshold);
            && Ordered(owed) && Rest(log, b.saved, p) == owed[|got| - 1 - b.count..]
            && Counted(start, got, b')
            && b'.count == (if b.count + 1 >= threshold then 0 else b.count + 1)
            && b'.saved == (if b.count + 1 >= threshold then Position(start, got) else b.saved)
            && Rest(log, b'.saved, p) == if b.count + 1 >= threshold then owed[|got|..] else owed[|got| - 1 - b.count..]
  {
    var finished := got[..|got| - 1];
    OwedFrom(log, start, p, finished[..|finished| - b.count]);
    OwedFrom(log, start, p, got);
  }

  /** The state with a new book and the event at hand completed. */
  function AfterFinish(s: State, e: Event): State
    requires s.life.Some?
  {
    s.(book := Complete(s.book, e.id, s.threshold), completed := s.completed + {e.id},
       life := Some(s.life.value.(work := Idle)))
  }

  lemma FinishCounts(log: seq<Event>, start: Cursor, p: Event -> bool, got: seq<Event>, b: Book,
                     threshold: int, completed: set<nat>, k: nat) returns (k': nat)
    requires Ordered(log) && |got| > 0 && got <= Rest(log, start, p) && Counted(start, got[..|got| - 1], b)
    requires Ahead(Rest(log, b.saved, p), completed, k) && b.count <= k <= Bound(threshold)
    ensures var b' := Complete(b, got[|got| - 1].id, threshold);
            && Ahead(Rest(log, b'.saved, p), completed + {got[|got| - 1].id}, k')
            && b'.count <= k' <= Bound(threshold) && Counted(start, got, b') && (k == b.count ==> k' == b'.count)
            && (b'.saved == b.saved || b'.saved == Position(start, got))
  {
    FinishBook(log, start, p, got, b, threshold);
    k' := FinishAhead(Rest(log, start, p), got, b.count, completed, k, threshold);
  }

  /** In a life the cursor that counts is one the store has passed. */
  lemma BaseBelow(s: State, k: nat)
    requires Inv(s, k) && s.life.Some? && s.store.last.Floor < Ulid.STAMP_LIMIT && Gapless(s)
    ensures M.Below(Base(s), s.store)
  {
    if s.book.saved.Latest? { assert !Base(s).Latest?; }
  }

  /** Everything about the finished event but the shape of the state. */
  lemma FinishFacts(s: State, k: nat) returns (k': nat)
    requires Inv(s, k) && s.life.Some? && s.life.value.work.Emitted?
    requires s.store.last.Floor < Ulid.STAMP_LIMIT && Gapless(s)
    ensures var sub, e := s.store.subs[s.life.value.sub], s.life.value.work.event;
            var b := Complete(Booked(s), e.id, s.threshold);
            && M.Below(b.saved, s.store)
            && Ahead(Rest(s.store.log, b.saved, s.p), s.completed + {e.id}, k')
            && b.count <= k' <= Bound(s.threshold) && (k == s.book.count ==> k' == b.count)
            && Counted(Effective(sub), sub.got, b)
  {
    var start, got := Effective(s.store.subs[s.life.value.sub]), s.store.subs[s.life.value.sub].got;
    GotIsOwed(s, k);
    PositionBelow(s.store, start, s.p, got);
    BaseBelow(s, k);
    k' := FinishCounts(s.store.log, start, s.p, got, Booked(s), s.threshold, s.completed, k);
  }

  lemma FinishKeeps(s: State, k: nat) returns (k': nat)
    requires Inv(s, k) && s.life.Some? && s.life.value.work.Emitted?
    ensures var s' := AfterFinish(s, s.life.value.work.event); Inv(s', k') && (Even(s, k) ==> Even(s', k'))
  {
    k' := k;
    if s.store.last.Floor < Ulid.STAMP_LIMIT && Gapless(s) {
      GotBelow(s);
      k' := FinishFacts(s, k);
    }
  }

  lemma GotBelow(s: State)
    requires M.Inv(s.store) && s.store.last.Floor < Ulid.STAMP_LIMIT
    requires s.life.Some? && s.life.value.sub < |s.store.subs| && |s.store.subs[s.life.value.sub].got| > 0
    ensures var got := s.store.subs[s.life.value.sub].got;
            got[|got| - 1].id < M.IdFloor(s.store.last.Floor + 1)
  {
    var sub := s.store.subs[s.life.value.sub];
    assert M.SubInv(s.store.log, M.Published(s.store), sub);
    assert sub.got[|sub.got| - 1] in M.Held(sub);
  }

  // ----- every failure-free run ---------------------------------------------------

  lemma StepKeeps(s: State, k: nat, step: Step) returns (k': nat)
    requires Inv(s, k) && ValidStep(step) && step != HandlerFails
    ensures Inv(Next(s, step), k') && (Even(s, k) && step != Crash ==> Even(Next(s, step), k'))
  {
    k' := k;
    var life := s.life;
    match step {
      case Env(inner) =>
        if !(life.Some? && inner == M.Take(life.value.sub)) { EnvKeeps(s, k, inner); }
      case StartUp =>
        if life.None? && |s.store.unpublished| == 0 { k' := StartUpKeeps(s, k); }
      case Deliver =>
        if life.Some? && life.value.work == Idle { DeliverKeeps(s, k); }
      case HandlerReturns(emits, ticks) =>
        if life.Some? && life.value.work.Handling? && |s.store.unpublished| == 0 && |emits| == |ticks| {
          ReturnKeeps(s, k, life.value.work.event, emits, ticks);
        }
      case Retry =>
        if life.Some? && life.value.work.Failed? && |s.store.unpublished| == 0 {
          M.SubscribeKeeps(s.store, life.value.startCursor, s.p);
        }
      case Finish =>
        if life.Some? && life.value.work.Emitted? { k' := FinishKeeps(s, k); }
      case TimerFlush =>
        if life.Some? { k' := FlushKeeps(s, k); }
      case Exit =>
        if life.Some? {
          k' := FlushKeeps(s, k);
          k' := LeaveKeeps(s.(book := Flush(s.book)), k');
        }
      case Crash =>
        if life.Some? { k' := LeaveKeeps(s, k); }
    }
  }

  lemma {:induction false} RunKeeps(s: State, k: nat, steps: seq<Step>) returns (k': nat)
    requires Inv(s, k) && ValidSteps(steps) && HandlerFails !in steps
    ensures Inv(Run(s, steps), k') && (Even(s, k) && Crash !in steps ==> Even(Run(s, steps), k'))
  {
    k' := k;
    if |steps| > 0 {
      k' := RunKeeps(s, k, steps[..|steps| - 1]);
      assert steps[|steps| - 1] in steps;
      k' := StepKeeps(Run(s, steps[..|steps| - 1]), k', steps[|steps| - 1]);
    }
  }

  function IsIn(ids: set<nat>): Event -> bool {
    (e: Event) => e.id in ids
  }

  lemma {:induction false} SelectAhead(owed: seq<Event>, completed: set<nat>, k: nat)
    requires Ahead(owed, completed, k)
    ensures Select(owed, IsIn(completed)) == owed[..k]
  {
    assert owed == owed[..k] + owed[k..];
    SelectConcat(owed[..k], owed[k..], IsIn(completed));
    SelectAll(owed[..k], IsIn(completed));
    SelectNone(owed[k..], IsIn(completed));
  }

  /**
   * Without handler failures, and as long as the agent is handed nothing from behind a gap in its
   * window, the completed events past the persisted cursor are the next ones after it and number at
   * most `cursorFlush.events - 1` at every moment, so that is the most a crash makes the next life
   * complete again.  That holds from every start, "latest" included; while nothing is persisted the
   * life's own start takes the cursor's place.
   */
  lemma CompletedPastSaved(store: M.State, agent: string, p: Event -> bool, threshold: int, origin: Cursor,
                           steps: seq<Step>)
    requires M.Inv(store) && Reached(origin, store) && ValidSteps(steps) && HandlerFails !in steps
    requires Run(Start(store, agent, p, threshold, origin), steps).store.last.Floor < Ulid.STAMP_LIMIT
    requires Never(HandsPastGap, Start(store, agent, p, threshold, origin), steps)
    ensures var s := Run(Start(store, agent, p, threshold, origin), steps);
            forall c | c == s.book.saved || c == Base(s) ::
              var owed := Rest(s.store.log, c, p);
              var past := Select(owed, IsIn(s.completed));
              past <= owed && |past| <= Bound(threshold)
  {
    var s0 := Start(store, agent, p, threshold, origin);
    var k := RunKeeps(s0, 0, steps);
    var s := Run(s0, steps);
    GaplessExactly(s0, steps);
    RunFixes(s0, steps);
    SelectAhead(Rest(s.store.log, Base(s), p), s.completed, k);
    if s.book.saved.Latest? { NothingAfterLatest(s.store.log, p); }
  }

  // ----- what a flush leaves, and what a new life repeats ---------------------------

  /** The events completed past the cursor that counts. */
  function Past(s: State): seq<Event> {
    Select(Rest(s.store.log, Base(s), s.p), IsIn(s.completed))
  }

  lemma PastIs(s: State, k: nat)
    requires Inv(s, k) && s.store.last.Floor < Ulid.STAMP_LIMIT && Gapless(s)
    ensures |Past(s)| == k
  {
    SelectAhead(Rest(s.store.log, Base(s), s.p), s.completed, k);
  }

  /** The same past the persisted cursor. */
  function PastSaved(s: State): seq<Event> {
    Select(Rest(s.store.log, s.book.saved, s.p), IsIn(s.completed))
  }

  lemma PastSavedIs(s: State, k: nat)
    requires Inv(s, k) && s.store.last.Floor < Ulid.STAMP_LIMIT && Gapless(s)
    ensures |PastSaved(s)| == if s.book.saved.Latest? then 0 else k
  {
    PastIs(s, k);
    if s.book.saved.Latest? { NothingAfterLatest(s.store.log, s.p); }
  }

  /** A timer tick or a clean exit. */
  predicate Flushes(step: Step) {
    step == TimerFlush || step == Exit
  }

  /**
   * Nothing stays unflushed.  In every run without handler failures and crashes, from every start,
   * no event completed so far lies past the persisted cursor after a timer tick or a clean exit.
   */
  lemma FlushLeavesNothing(store: M.State, agent: string, p: Event -> bool, threshold: int, origin: Cursor,
                           steps: seq<Step>, last: Step)
    requires M.Inv(store) && Reached(origin, store) && ValidSteps(steps) && Flushes(last)
    requires HandlerFails !in steps && Crash !in steps
    requires var s0 := Start(store, agent, p, threshold, origin);
             Run(s0, steps + [last]).store.last.Floor < Ulid.STAMP_LIMIT && Never(HandsPastGap, s0, steps + [last])
    ensures PastSaved(Run(Start(store, agent, p, threshold, origin), steps + [last])) == []
  {
    var s0 := Start(store, agent, p, threshold, origin);
    assert ValidSteps(steps + [last]);
    var k := RunKeeps(s0, 0, steps + [last]);
    GaplessExactly(s0, steps + [last]);
    RunMore(s0, steps, last);
    NothingCounted(Run(s0, steps), last);
    PastSavedIs(Run(s0, steps + [last]), k);
  }

  lemma NothingCounted(s: State, last: Step)
    requires s.store.last >= 0.0 && Flushes(last)
    ensures Next(s, last).life.Some? ==> Next(s, last).book.count == 0
  {
  }

  /** What a flush in a life does to the events past the cursor: it takes in what this life has counted. */
  lemma FlushTakesIn(s: State, k: nat, last: Step)
    requires Inv(s, k) && s.store.last.Floor < Ulid.STAMP_LIMIT && Gapless(s)
    requires s.life.Some? && s.book.pending.Some? && Flushes(last)
    ensures |PastSaved(Next(s, last))| == |Past(s)| - s.book.count
  {
    PastIs(s, k);
    var k' := FlushKeeps(s, k);
    PastSavedIs(s.(book := Flush(s.book)), k');
  }

  /**
   * With crashes the same holds exactly when, before the flush, no more events were completed past
   * the cursor than this life has counted: a crash may have left completed events behind that the
   * next life has not yet reached again.
   */
  lemma FlushLeavesNothingExactly(store: M.State, agent: string, p: Event -> bool, threshold: int, origin: Cursor,
                                  steps: seq<Step>, last: Step)
    requires M.Inv(store) && Reached(origin, store) && ValidSteps(steps) && Flushes(last) && HandlerFails !in steps
    requires var s0 := Start(store, agent, p, threshold, origin);
             && Run(s0, steps).store.last.Floor < Ulid.STAMP_LIMIT && Never(HandsPastGap, s0, steps)
             && Run(s0, steps).life.Some? && Run(s0, steps).book.pending.Some?
    ensures var s0 := Start(store, agent, p, threshold, origin);
            var before := Run(s0, steps);
            PastSaved(Run(s0, steps + [last])) == [] <==> |Past(before)| == before.book.count
  {
    var s0 := Start(store, agent, p, threshold, origin);
    var k := RunKeeps(s0, 0, steps);
    GaplessExactly(s0, steps);
    RunMore(s0, steps, last);
    FlushTakesIn(Run(s0, steps), k, last);
  }

  /** One event handed over, handled and completed. */
  function HandleOne(): seq<Step> {
    [Deliver, HandlerReturns([], []), Finish]
  }

  /** An agent is idle with `replay` before it and this much in its book. */
  ghost predicate Reading(s: State, log: seq<Event>, replay: seq<Event>, b: Book, completed: set<nat>) {
    && s.store.last >= 0.0 && s.store.unpublished == [] && s.store.log == log && s.threshold >= 3
    && IsIdle(s) && s.store.subs[s.life.value.sub].replay == replay
    && s.book == b && s.completed == completed
  }

  lemma ReadsOne(s: State, log: seq<Event>, replay: seq<Event>, b: Book, completed: set<nat>)
    requires Reading(s, log, replay, b, completed) && |replay| > 0 && b.count < 2
    ensures var e, t := replay[0], Run(s, HandleOne());
            Reading(t, log, replay[1..], Book(b.saved, Some(e.id), b.count + 1), completed + {e.id}) && t.p == s.p
  {
    var k := s.life.value.sub;
    ThreeSteps(s, Deliver, HandlerReturns([], []), Finish);
    M.TakeMoves(s.store, k);
    HandlesNext(s, replay[0]);
  }

  /** A life that completes two events and crashes, and a second one that completes one and flushes. */
  function FirstLife(): seq<Step> {
    [StartUp] + HandleOne() + HandleOne()
  }

  function SecondLife(): seq<Step> {
    [Crash, StartUp] + HandleOne()
  }

  lemma StartsReading(s: State, b: Book)
    requires M.Inv(s.store) && s.store.unpublished == [] && s.threshold >= 3 && s.life.None?
    requires s.book == b && !b.saved.Latest?
    ensures Reading(Next(s, StartUp), s.store.log, Rest(s.store.log, b.saved, s.p), Reopen(b), s.completed)
    ensures Next(s, StartUp).p == s.p
  {
    if b.saved.Earliest? { SelectAgree(s.store.log, s.p, Wants(b.saved, s.p)); }
  }

  lemma FirstLifeReads(s: State, r: seq<Event>)
    requires M.Inv(s.store) && s.store.unpublished == [] && s.threshold >= 3 && s.life.None? && s.completed == {}
    requires !s.book.saved.Latest? && r == Rest(s.store.log, s.book.saved, s.p) && |r| >= 2
    ensures var t := Run(s, FirstLife());
            Reading(t, s.store.log, r[2..], Book(s.book.saved, Some(r[1].id), 2), {r[0].id, r[1].id}) && t.p == s.p
  {
    StartsReading(s, s.book);
    OneStep(s, StartUp);
    var one := Run(s, [StartUp]);
    ReadsOne(one, s.store.log, r, Reopen(s.book), {});
    RunConcat(s, [StartUp], HandleOne());
    var two := Run(one, HandleOne());
    ReadsOne(two, s.store.log, r[1..], Book(s.book.saved, Some(r[0].id), 1), {r[0].id});
    RunConcat(s, [StartUp] + HandleOne(), HandleOne());
    assert r[1..][1..] == r[2..];
  }

  lemma SecondLifeReads(s: State, b: Book, completed: set<nat>, r: seq<Event>, rest: seq<Event>)
    requires M.Inv(s.store) && Reading(s, s.store.log, rest, b, completed)
    requires !b.saved.Latest? && r == Rest(s.store.log, b.saved, s.p) && |r| >= 2 && r[0].id in completed
    ensures var t := Run(s, SecondLife());
            Reading(t, s.store.log, r[1..], Book(b.saved, Some(r[0].id), 1), completed) && t.p == s.p
  {
    var crashed := Next(s, Crash);
    TwoSteps(s, Crash, StartUp);
    StartsReading(crashed, b);
    ReadsOne(Next(crashed, StartUp), s.store.log, r, Reopen(b), completed);
    RunConcat(s, [Crash, StartUp], HandleOne());
    assert completed + {r[0].id} == completed;
  }

  lemma CrashingStepsValid()
    ensures var steps := FirstLife() + SecondLife() + [TimerFlush]; ValidSteps(steps) && HandlerFails !in steps
    ensures ValidSteps(FirstLife())
  {
  }

  /**
   * A crash can leave completed events behind: from every store with two events owed there is a run
   * without handler failures after whose timer tick a completed event still lies past the persisted
   * cursor.  So the proviso on crashes cannot be dropped.
   */
  lemma CrashLeavesBehind(store: M.State, agent: string, p: Event -> bool, threshold: int, origin: Cursor)
    requires M.Inv(store) && store.unpublished == [] && M.Below(origin, store) && store.last.Floor < Ulid.STAMP_LIMIT
    requires |Rest(store.log, origin, p)| >= 2 && threshold >= 3
    ensures var steps := FirstLife() + SecondLife() + [TimerFlush]; ValidSteps(steps) && HandlerFails !in steps
    ensures var s0, r := Start(store, agent, p, threshold, origin), Rest(store.log, origin, p);
            var s := Run(s0, FirstLife() + SecondLife() + [TimerFlush]);
            && s.book.saved == At(r[0].id) && s.store.log == store.log && r[1] in PastSaved(s)
  {
    var s0, r := Start(store, agent, p, threshold, origin), Rest(store.log, origin, p);
    CrashingStepsValid();
    CrashingReads(s0, r);
    RunMore(s0, FirstLife() + SecondLife(), TimerFlush);
    BehindTheFlush(Run(s0, FirstLife() + SecondLife()), origin, r);
  }

  lemma CrashingReads(s: State, r: seq<Event>)
    requires M.Inv(s.store) && s.store.unpublished == [] && s.threshold >= 3 && s.life.None? && s.completed == {}
    requires !s.book.saved.Latest? && r == Rest(s.store.log, s.book.saved, s.p) && |r| >= 2
    ensures var t := Run(s, FirstLife() + SecondLife());
            Reading(t, s.store.log, r[1..], Book(s.book.saved, Some(r[0].id), 1), {r[0].id, r[1].id}) && t.p == s.p
  {
    CrashingStepsValid();
    FirstLifeReads(s, r);
    RunStands(s, FirstLife());
    SecondLifeReads(Run(s, FirstLife()), Book(s.book.saved, Some(r[1].id), 2), {r[0].id, r[1].id}, r, r[2..]);
    RunConcat(s, FirstLife(), SecondLife());
  }

  /** The flush persists the first event, and the second is completed and behind it. */
  lemma BehindTheFlush(s: State, origin: Cursor, r: seq<Event>)
    requires Ordered(s.store.log) && r == Rest(s.store.log, origin, s.p) && |r| >= 2
    requires Reading(s, s.store.log, r[1..], Book(origin, Some(r[0].id), 1), {r[0].id, r[1].id})
    ensures var t := Next(s, TimerFlush);
            t.book.saved == At(r[0].id) && t.store.log == s.store.log && r[1] in PastSaved(t)
  {
    ReadOn(s.store.log, origin, s.p, 0);
    assert r[1..][0] == r[1];
    SelectMember(r[1..], IsIn({r[0].id, r[1].id}), r[1]);
  }

  /** The agent is handed an event it has completed before. */
  predicate HandsAgain(s: State, step: Step) {
    && step == Deliver && s.store.last >= 0.0 && s.life.Some? && s.life.value.work == Idle
    && var life := Next(s, Deliver).life;
       life.Some? && life.value.work.Handling? && life.value.work.event.id in s.completed
  }

  /** The next event owed is behind the counted ones, and nothing behind those is completed. */
  lemma NextOwed(log: seq<Event>, start: Cursor, p: Event -> bool, got: seq<Event>, e: Event, b: Book,
                 completed: set<nat>)
    requires Ordered(log) && got + [e] <= Rest(log, start, p) && Counted(start, got, b)
    requires Ahead(Rest(log, b.saved, p), completed, b.count)
    ensures e.id !in completed
  {
    var owed, n := Rest(log, start, p), b.count;
    assert got == (got + [e])[..|got|] && (got + [e])[|got|] == e;
    OwedFrom(log, start, p, got[..|got| - n]);
    assert owed[|got| - n..][n] == e;
  }

  /** The invariant read for an idle agent of an even run. */
  lemma IdleCounts(s: State, k: nat)
    requires Inv(s, k) && Even(s, k) && s.store.last.Floor < Ulid.STAMP_LIMIT && Gapless(s)
    requires s.life.Some? && s.life.value.work == Idle
    ensures var sub, b := s.store.subs[s.life.value.sub], Booked(s);
            && Ordered(s.store.log) && Counted(Effective(sub), sub.got, b)
            && Ahead(Rest(s.store.log, b.saved, s.p), s.completed, b.count)
  {
  }

  lemma DeliveredOwed(s: State, k: nat)
    requires Inv(s, k) && s.life.Some? && s.store.last.Floor < Ulid.STAMP_LIMIT && Gapless(s)
    ensures s.life.value.sub < |s.store.subs|
    ensures var sub := s.store.subs[s.life.value.sub]; sub.got <= Rest(s.store.log, Effective(sub), s.p)
  {
    GotIsOwed(s, k);
  }

  lemma NotAgain(s: State, t: State, handed: seq<Event>)
    requires s.store.last >= 0.0 && t == Next(s, Deliver) && Ordered(s.store.log) && |handed| <= 1
    requires s.life.Some? && s.life.value.work == Idle && s.life.value.sub < |s.store.subs|
    requires t.life == Some(s.life.value.(work := if |handed| > 0 then Handling(handed[0]) else Idle))
    requires t.store.log == s.store.log && t.p == s.p && s.life.value.sub < |t.store.subs|
    requires var sub, after, b := s.store.subs[s.life.value.sub], t.store.subs[s.life.value.sub], Booked(s);
             && after.got == sub.got + handed && after.got <= Rest(s.store.log, Effective(after), s.p)
             && after.cursor == sub.cursor && after.snapshotMax == sub.snapshotMax
             && Counted(Effective(sub), sub.got, b) && Ahead(Rest(s.store.log, b.saved, s.p), s.completed, b.count)
    ensures !HandsAgain(s, Deliver)
  {
    var k := s.life.value.sub;
    if |handed| > 0 {
      HandedOwed(s.store.log, s.p, s.store.subs[k], t.store.subs[k], handed[0], Booked(s), s.completed);
    }
  }

  lemma HandedOwed(log: seq<Event>, p: Event -> bool, sub: M.Subscriber, after: M.Subscriber, e: Event, b: Book,
                   completed: set<nat>)
    requires Ordered(log) && after.got == sub.got + [e] && after.got <= Rest(log, Effective(after), p)
    requires after.cursor == sub.cursor && after.snapshotMax == sub.snapshotMax
    requires Counted(Effective(sub), sub.got, b) && Ahead(Rest(log, b.saved, p), completed, b.count)
    ensures e.id !in completed
  {
    NextOwed(log, Effective(sub), p, sub.got, e, b, completed);
  }

  lemma StepNotAgain(s: State, k: nat, step: Step)
    requires Inv(s, k) && Even(s, k) && s.store.last.Floor < Ulid.STAMP_LIMIT && Gapless(s) && Gapless(Next(s, step))
    ensures !HandsAgain(s, step)
  {
    if step == Deliver && s.life.Some? && s.life.value.work == Idle {
      DeliverKeeps(s, k);
      IdleCounts(s, k);
      DeliveredOwed(DeliverOne(s), k);
      var handed := DeliverChanges(s);
      NotAgain(s, DeliverOne(s), handed);
    }
  }

  /**
   * A new life repeats nothing.  In every run without handler failures and crashes, whatever flushes,
   * exits and restarts it has, no event is ever handed to the agent again once it is completed.
   */
  lemma {:induction false} CleanRestartsRepeatNothing(
      store: M.State, agent: string, p: Event -> bool, threshold: int, origin: Cursor, steps: seq<Step>)
    requires M.Inv(store) && Reached(origin, store) && ValidSteps(steps)
    requires HandlerFails !in steps && Crash !in steps
    requires Run(Start(store, agent, p, threshold, origin), steps).store.last.Floor < Ulid.STAMP_LIMIT
    requires Never(HandsPastGap, Start(store, agent, p, threshold, origin), steps)
    ensures Never(HandsAgain, Start(store, agent, p, threshold, origin), steps)
  {
    if |steps| > 0 {
      var s0, init, last := Start(store, agent, p, threshold, origin), steps[..|steps| - 1], steps[|steps| - 1];
      CleanRestartsRepeatNothing(store, agent, p, threshold, origin, init);
      var s := Run(s0, init);
      var k := RunKeeps(s0, 0, init);
      GaplessExactly(s0, init);
      GaplessExactly(s0, steps);
      StepNotAgain(s, k, last);
    }
  }

  /**
   * Without that proviso the completed events need not be the next ones: from every store there is
   * a run in which a batch of 1025 events overflows the window of an agent that has yet to take any,
   * and what it completes first is not the first event it is owed.
   */
  lemma MayCompleteLater(store: M.State, agent: string, threshold: int, origin: Cursor,
                         inputs: seq<EventInput>, ticks: seq<M.Tick>)
    requires M.Overflowing(store, origin, inputs, ticks) && threshold >= 2
    ensures ValidSteps(OverrunSteps(inputs, ticks)) && HandlerFails !in OverrunSteps(inputs, ticks)
    ensures var s := Run(Start(store, agent, M.Anything(), threshold, origin), OverrunSteps(inputs, ticks));
            var owed := Rest(s.store.log, s.book.saved, s.p);
            && s.book.saved == origin && |owed| > 1
            && owed[0].id !in s.completed && owed[1].id in s.completed
  {
    OverrunStepsValid(inputs, ticks);
    OverrunRuns(store, agent, threshold, origin, inputs, ticks);
    OverrunHandles(store, agent, threshold, origin, inputs, ticks);
    M.MintedIsAsked(store, origin, inputs, ticks);
    var s := Run(Start(store, agent, M.Anything(), threshold, origin), OverrunSteps(inputs, ticks));
    assert Rest(s.store.log, s.book.saved, s.p) == M.Mint(store.last, inputs, ticks).0;
  }
}

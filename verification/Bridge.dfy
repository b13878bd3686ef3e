/**
 * The canvas bridge's per-record debounce (apps/web/src/RxweaveBridge.tsx): upserts wait for a
 * quiet moment, a newer upsert or a delete of the same id cancels the waiting one, and the
 * cleanup sends what is left.
 *
 * The emitted order is the order of the `appendEvent` calls; their promises are not part of this
 * model.
 */
module Bridge {
  import opened Wrappers
  import opened CanvasFold

  datatype TypeName = ShapeRecord | BindingRecord | OtherRecord

  datatype Op = Upsert | Delete

  /** Only shapes and bindings travel. */
  function RecordToEvent(typeName: TypeName, record: Record, op: Op): CanvasEvent {
    match typeName
    case ShapeRecord => if op.Delete? then Deleted(Shape, Some(record.id)) else Upserted(Shape, Some(record))
    case BindingRecord => if op.Delete? then Deleted(Binding, Some(record.id)) else Upserted(Binding, Some(record))
    case OtherRecord => Unrelated
  }

  datatype Waiting = Waiting(timer: nat, kind: Kind, record: Record)

  /**
   * `timers` are the timeouts the browser still holds, each with what its callback closed over.
   * `user` is the sequence of events the user's changes stand for, undebounced.
   */
  datatype State = State(
    pending: map<string, Waiting>,
    timers: map<nat, (string, Kind, Record)>,
    nextTimer: nat,
    emitted: seq<CanvasEvent>,
    user: seq<CanvasEvent>)

  const INIT := State(map[], map[], 0, [], [])

  datatype Step =
    | Change(typeName: TypeName, record: Record, op: Op)
    | Fire(timer: nat)

  /** `clearTimeout` of a waiting upsert, if there is one. */
  function Cleared(s: State, id: string): map<nat, (string, Kind, Record)> {
    if id in s.pending then s.timers - {s.pending[id].timer} else s.timers
  }

  function ScheduleUpsert(s: State, kind: Kind, record: Record): State {
    s.(timers := Cleared(s, record.id)[s.nextTimer := (record.id, kind, record)],
       pending := s.pending[record.id := Waiting(s.nextTimer, kind, record)],
       nextTimer := s.nextTimer + 1,
       user := s.user + [Upserted(kind, Some(record))])
  }

  function FlushForDelete(s: State, kind: Kind, id: string): State {
    s.(timers := Cleared(s, id),
       pending := s.pending - {id},
       emitted := s.emitted + [Deleted(kind, Some(id))],
       user := s.user + [Deleted(kind, Some(id))])
  }

  /** The callback of a timeout that was not cleared. */
  function TimerFires(s: State, timer: nat): State
    requires timer in s.timers
  {
    var (id, kind, record) := s.timers[timer];
    s.(timers := s.timers - {timer}, pending := s.pending - {id}, emitted := s.emitted + [Upserted(kind, Some(record))])
  }

  function Next(s: State, step: Step): State {
    match step
    case Change(typeName, record, op) =>
      (match RecordToEvent(typeName, record, op)
       case Upserted(kind, _) => ScheduleUpsert(s, kind, record)
       case Deleted(kind, _) => FlushForDelete(s, kind, record.id)
       case Unrelated => s)
    case Fire(timer) => if timer in s.timers then TimerFires(s, timer) else s
  }

  function Run(s: State, steps: seq<Step>): State {
    if |steps| == 0 then s else Next(Run(s, steps[..|steps| - 1]), steps[|steps| - 1])
  }

  // ----- meaning ------------------------------------------------------------------

  function WaitingTable(pending: map<string, Waiting>, kind: Kind): map<string, Record> {
    map id | id in pending && id != "" && pending[id].kind == kind :: pending[id].record
  }

  /** A canvas with every waiting upsert applied; waiting ids differ, so the order is no matter. */
  function Overlay(c: Canvas, pending: map<string, Waiting>): Canvas {
    Canvas(c.shapes + WaitingTable(pending, Shape), c.bindings + WaitingTable(pending, Binding))
  }

  /** Every timeout belongs to the entry of its id, and the other way round. */
  ghost predicate Paired(s: State) {
    && (forall id :: id in s.pending ==>
          && s.pending[id].record.id == id
          && s.pending[id].timer in s.timers
          && s.timers[s.pending[id].timer] == (id, s.pending[id].kind, s.pending[id].record))
    && (forall t :: t in s.timers ==>
          t < s.nextTimer && s.timers[t].0 in s.pending && s.pending[s.timers[t].0].timer == t)
  }

  /** What is emitted and what waits together mean what the user did. */
  ghost predicate Faithful(s: State) {
    Overlay(Fold(s.emitted), s.pending) == Fold(s.user)
  }

  lemma StepPairs(s: State, step: Step)
    requires Paired(s)
    ensures Paired(Next(s, step))
  {
  }

  /**
   * A waiting upsert of this id is dropped only for one of its own kind, or when it changes
   * nothing: its id is empty, or the emitted events already hold that very record.
   */
  predicate DropIsHarmless(s: State, kind: Kind, id: string) {
    id in s.pending && s.pending[id].kind != kind && id != "" ==>
      var table := Table(Fold(s.emitted), s.pending[id].kind);
      id in table && table[id] == s.pending[id].record
  }

  lemma WaitingPut(pending: map<string, Waiting>, id: string, w: Waiting, kind: Kind)
    ensures WaitingTable(pending[id := w], kind) ==
            if w.kind == kind && id != "" then WaitingTable(pending, kind)[id := w.record]
            else WaitingTable(pending, kind) - {id}
  {
  }

  lemma WaitingDrop(pending: map<string, Waiting>, id: string, kind: Kind)
    ensures WaitingTable(pending - {id}, kind) == WaitingTable(pending, kind) - {id}
  {
  }

  /** Taking one key out of the upper map changes the overlay unless the lower map says the same. */
  lemma UnderlayShows(lower: map<string, Record>, upper: map<string, Record>, id: string)
    ensures lower + (upper - {id}) == lower + upper <==>
            id !in upper || (id in lower && lower[id] == upper[id])
  {
    var a, b := lower + (upper - {id}), lower + upper;
    if id in upper {
      assert b[id] == upper[id];
      if id in lower {
        assert a[id] == lower[id];
        if lower[id] == upper[id] { assert a == b; }
      } else {
        assert id !in a && id in b;
      }
    } else {
      assert upper - {id} == upper;
    }
  }

  function Other(kind: Kind): Kind {
    if kind.Shape? then Binding else Shape
  }

  lemma OverlayTable(c: Canvas, pending: map<string, Waiting>, kind: Kind)
    ensures Table(Overlay(c, pending), kind) == Table(c, kind) + WaitingTable(pending, kind)
  {
  }

  lemma AppliedTables(c: Canvas, event: CanvasEvent, kind: Kind)
    requires (event.Upserted? && event.record.Some? && event.kind == kind)
          || (event.Deleted? && event.id.Some? && event.kind == kind)
    ensures Table(Apply(c, event), Other(kind)) == Table(c, Other(kind))
    ensures event.Upserted? ==>
              Table(Apply(c, event), kind) ==
              (if event.record.value.id == "" then Table(c, kind)
               else Table(c, kind)[event.record.value.id := event.record.value])
    ensures event.Deleted? ==>
              Table(Apply(c, event), kind) ==
              (if event.id.value != "" then Table(c, kind) - {event.id.value} else Table(c, kind))
  {
  }

  lemma PutOver(lower: map<string, Record>, upper: map<string, Record>, id: string, r: Record)
    ensures lower + upper[id := r] == (lower + upper)[id := r]
  {
  }

  lemma DropFromBoth(lower: map<string, Record>, upper: map<string, Record>, id: string)
    ensures (lower - {id}) + (upper - {id}) == (lower + upper) - {id}
  {
  }

  lemma NothingToDrop(m: map<string, Record>, id: string)
    requires id !in m
    ensures m - {id} == m
  {
  }

  /** The table of the upsert's own kind always comes out right. */
  lemma UpsertOwnTable(c: Canvas, pending: map<string, Waiting>, kind: Kind, record: Record, timer: nat)
    ensures var after := pending[record.id := Waiting(timer, kind, record)];
            Table(Overlay(c, after), kind) == Table(Apply(Overlay(c, pending), Upserted(kind, Some(record))), kind)
  {
    var id, w := record.id, Waiting(timer, kind, record);
    OverlayTable(c, pending, kind);
    OverlayTable(c, pending[id := w], kind);
    WaitingPut(pending, id, w, kind);
    AppliedTables(Overlay(c, pending), Upserted(kind, Some(record)), kind);
    if id != "" {
      PutOver(Table(c, kind), WaitingTable(pending, kind), id, record);
    } else {
      NothingToDrop(WaitingTable(pending, kind), id);
    }
  }

  /** The other kind's table loses what waited under this id. */
  lemma DropOtherTable(c: Canvas, pending: map<string, Waiting>, after: map<string, Waiting>, id: string, other: Kind)
    requires WaitingTable(after, other) == WaitingTable(pending, other) - {id}
    ensures Table(Overlay(c, after), other) == Table(Overlay(c, pending), other) <==>
            (id in pending && pending[id].kind == other && id != "" ==>
               id in Table(c, other) && Table(c, other)[id] == pending[id].record)
  {
    OverlayTable(c, pending, other);
    OverlayTable(c, after, other);
    UnderlayShows(Table(c, other), WaitingTable(pending, other), id);
  }

  /** Scheduling an upsert keeps the meaning exactly when the upsert it replaces was harmless to drop. */
  lemma UpsertFaithful(s: State, kind: Kind, record: Record)
    requires Faithful(s)
    ensures Faithful(ScheduleUpsert(s, kind, record)) <==> DropIsHarmless(s, kind, record.id)
  {
    var c, event := Fold(s.emitted), Upserted(kind, Some(record));
    var after := s.pending[record.id := Waiting(s.nextTimer, kind, record)];
    FoldOneMore(s.user, event);
    UpsertOwnTable(c, s.pending, kind, record, s.nextTimer);
    AppliedTables(Overlay(c, s.pending), event, kind);
    WaitingPut(s.pending, record.id, after[record.id], Other(kind));
    DropOtherTable(c, s.pending, after, record.id, Other(kind));
  }

  lemma DeleteOwnTable(c: Canvas, pending: map<string, Waiting>, kind: Kind, id: string)
    ensures var event := Deleted(kind, Some(id));
            Table(Overlay(Apply(c, event), pending - {id}), kind) == Table(Apply(Overlay(c, pending), event), kind)
  {
    var event := Deleted(kind, Some(id));
    OverlayTable(c, pending, kind);
    OverlayTable(Apply(c, event), pending - {id}, kind);
    WaitingDrop(pending, id, kind);
    AppliedTables(c, event, kind);
    AppliedTables(Overlay(c, pending), event, kind);
    if id != "" {
      DropFromBoth(Table(c, kind), WaitingTable(pending, kind), id);
    } else {
      NothingToDrop(WaitingTable(pending, kind), id);
    }
  }

  /** So does a delete. */
  lemma DeleteFaithful(s: State, kind: Kind, id: string)
    requires Faithful(s)
    ensures Faithful(FlushForDelete(s, kind, id)) <==> DropIsHarmless(s, kind, id)
  {
    var c, event, after := Fold(s.emitted), Deleted(kind, Some(id)), s.pending - {id};
    FoldOneMore(s.user, event);
    FoldOneMore(s.emitted, event);
    DeleteOwnTable(c, s.pending, kind, id);
    AppliedTables(c, event, kind);
    AppliedTables(Overlay(c, s.pending), event, kind);
    WaitingDrop(s.pending, id, Other(kind));
    OverlayTable(c, after, Other(kind));
    OverlayTable(Apply(c, event), after, Other(kind));
    DropOtherTable(c, s.pending, after, id, Other(kind));
  }

  /** A timer only moves an upsert from waiting to emitted. */
  lemma FireFaithful(s: State, timer: nat)
    requires Paired(s) && Faithful(s) && timer in s.timers
    ensures Faithful(TimerFires(s, timer))
  {
    var (id, kind, record) := s.timers[timer];
    MoveFaithful(Fold(s.emitted), s.pending, id);
    FoldOneMore(s.emitted, Upserted(kind, Some(record)));
  }

  lemma MovedUnder(lower: map<string, Record>, upper: map<string, Record>, id: string)
    requires id in upper
    ensures lower[id := upper[id]] + (upper - {id}) == lower + upper
  {
  }

  /** Applying a waiting upsert early is the same as leaving it waiting. */
  lemma MoveFaithful(c: Canvas, pending: map<string, Waiting>, id: string)
    requires id in pending && pending[id].record.id == id
    ensures var event := Upserted(pending[id].kind, Some(pending[id].record));
            Overlay(Apply(c, event), pending - {id}) == Overlay(c, pending)
  {
    var kind := pending[id].kind;
    var event := Upserted(kind, Some(pending[id].record));
    var other := Other(kind);
    AppliedTables(c, event, kind);
    WaitingDrop(pending, id, kind);
    WaitingDrop(pending, id, other);
    NothingToDrop(WaitingTable(pending, other), id);
    OverlayTable(c, pending, kind);
    OverlayTable(c, pending, other);
    OverlayTable(Apply(c, event), pending - {id}, kind);
    OverlayTable(Apply(c, event), pending - {id}, other);
    if id != "" {
      MovedUnder(Table(c, kind), WaitingTable(pending, kind), id);
    } else {
      NothingToDrop(WaitingTable(pending, kind), id);
    }
  }

  lemma SendOne(emitted: seq<CanvasEvent>, left: map<string, Waiting>, id: string)
    requires id in left && left[id].record.id == id
    ensures var event := Upserted(left[id].kind, Some(left[id].record));
            Overlay(Fold(emitted + [event]), left - {id}) == Overlay(Fold(emitted), left)
  {
    MoveFaithful(Fold(emitted), left, id);
    FoldOneMore(emitted, Upserted(left[id].kind, Some(left[id].record)));
  }

  lemma NothingWaits(c: Canvas)
    ensures Overlay(c, map[]) == c
  {
    assert WaitingTable(map[], Shape) == map[] && WaitingTable(map[], Binding) == map[];
  }

  // ----- every run ----------------------------------------------------------------

  function KindOf(event: CanvasEvent): Option<(string, Kind)> {
    match event
    case Upserted(kind, record) => if record.Some? then Some((record.value.id, kind)) else None
    case Deleted(kind, id) => if id.Some? then Some((id.value, kind)) else None
    case Unrelated => None
  }

  /** Each id names one kind of record. */
  ghost predicate OneKindPerId(events: seq<CanvasEvent>) {
    forall i, j :: 0 <= i < |events| && 0 <= j < |events| && KindOf(events[i]).Some? && KindOf(events[j]).Some?
                   && KindOf(events[i]).value.0 == KindOf(events[j]).value.0 ==>
                     KindOf(events[i]) == KindOf(events[j])
  }

  /** What waits was asked for by the user. */
  ghost predicate Asked(s: State) {
    forall id :: id in s.pending ==> Upserted(s.pending[id].kind, Some(s.pending[id].record)) in s.user
  }

  ghost predicate Inv(s: State) {
    Paired(s) && Asked(s) && (OneKindPerId(s.user) ==> Faithful(s))
  }

  lemma OneKindIsHarmless(s: State, event: CanvasEvent)
    requires Paired(s) && Asked(s) && KindOf(event).Some? && OneKindPerId(s.user + [event])
    ensures DropIsHarmless(s, KindOf(event).value.1, KindOf(event).value.0)
  {
    var (id, kind) := KindOf(event).value;
    if id in s.pending {
      var up := Upserted(s.pending[id].kind, Some(s.pending[id].record));
      var i :| 0 <= i < |s.user| && s.user[i] == up;
      assert (s.user + [event])[i] == up && (s.user + [event])[|s.user|] == event;
    }
  }

  lemma FewerStillOneKind(events: seq<CanvasEvent>, event: CanvasEvent)
    requires OneKindPerId(events + [event])
    ensures OneKindPerId(events)
  {
    forall i | 0 <= i < |events| ensures events[i] == (events + [event])[i] { }
  }

  lemma ChangeKeeps(s: State, typeName: TypeName, record: Record, op: Op)
    requires Inv(s)
    ensures Inv(Next(s, Change(typeName, record, op)))
  {
    var s' := Next(s, Change(typeName, record, op));
    var event := RecordToEvent(typeName, record, op);
    StepPairs(s, Change(typeName, record, op));
    if event != Unrelated && OneKindPerId(s'.user) {
      FewerStillOneKind(s.user, event);
      OneKindIsHarmless(s, event);
      if op.Delete? { DeleteFaithful(s, event.kind, record.id); } else { UpsertFaithful(s, event.kind, record); }
    }
  }

  lemma StepKeeps(s: State, step: Step)
    requires Inv(s)
    ensures Inv(Next(s, step))
  {
    match step {
      case Change(typeName, record, op) => ChangeKeeps(s, typeName, record, op);
      case Fire(timer) =>
        if timer in s.timers {
          StepPairs(s, step);
          if OneKindPerId(s.user) { FireFaithful(s, timer); }
        }
    }
  }

  lemma {:induction false} RunKeeps(s: State, steps: seq<Step>)
    requires Inv(s)
    ensures Inv(Run(s, steps))
  {
    if |steps| > 0 {
      RunKeeps(s, steps[..|steps| - 1]);
      StepKeeps(Run(s, steps[..|steps| - 1]), steps[|steps| - 1]);
    }
  }

  /** Folding the emitted events and then the waiting ones gives what folding all user events gives. */
  lemma RunIsFaithful(steps: seq<Step>)
    requires OneKindPerId(Run(INIT, steps).user)
    ensures var s := Run(INIT, steps);
            && Overlay(Fold(s.emitted), s.pending) == Fold(s.user)
            && (s.pending == map[] ==> Fold(s.emitted) == Fold(s.user))
  {
    RunKeeps(INIT, steps);
    NothingWaits(Fold(Run(INIT, steps).emitted));
  }

  // ----- what the user did --------------------------------------------------------

  /** What the last change to a record of this type and id says, if there is one. */
  function LastChange(steps: seq<Step>, typeName: TypeName, id: string, before: Verdict): Verdict {
    if |steps| == 0 then before
    else SaidBy(steps[|steps| - 1], typeName, id, LastChange(steps[..|steps| - 1], typeName, id, before))
  }

  function Told(table: map<string, Record>, id: string): Verdict {
    if id in table then Present(table[id]) else Gone
  }

  /** A canvas as the changes of a run leave it: shapes among the shapes, bindings among the bindings, no others. */
  ghost predicate AsChanged(c: Canvas, steps: seq<Step>) {
    forall id ::
      && Told(c.shapes, id) == (if id == "" then Gone else LastChange(steps, ShapeRecord, id, Gone))
      && Told(c.bindings, id) == (if id == "" then Gone else LastChange(steps, BindingRecord, id, Gone))
  }

  lemma LastWordMore(events: seq<CanvasEvent>, event: CanvasEvent, kind: Kind, id: string)
    ensures LastWord(events + [event], kind, id) ==
            if Says(event, kind, id).Silent? then LastWord(events, kind, id) else Says(event, kind, id)
  {
    assert (events + [event])[..|events|] == events;
  }

  /** What one more step says, if anything. */
  function SaidBy(step: Step, typeName: TypeName, id: string, before: Verdict): Verdict {
    if !step.Change? || step.typeName != typeName || step.record.id != id then before
    else if step.op.Delete? then Gone
    else Present(step.record)
  }

  lemma ChangeSays(typeName: TypeName, record: Record, op: Op, id: string)
    requires id != ""
    ensures var event, step := RecordToEvent(typeName, record, op), Change(typeName, record, op);
            && Says(event, Shape, id) == SaidBy(step, ShapeRecord, id, Silent)
            && Says(event, Binding, id) == SaidBy(step, BindingRecord, id, Silent)
  {
  }

  /** What one step adds to the events the user's changes stand for. */
  lemma StepSays(s: State, step: Step, id: string)
    requires id != ""
    ensures var user := Next(s, step).user;
            && LastWord(user, Shape, id) == SaidBy(step, ShapeRecord, id, LastWord(s.user, Shape, id))
            && LastWord(user, Binding, id) == SaidBy(step, BindingRecord, id, LastWord(s.user, Binding, id))
  {
    if step.Change? {
      var event := RecordToEvent(step.typeName, step.record, step.op);
      ChangeSays(step.typeName, step.record, step.op, id);
      UserGains(s, step.typeName, step.record, step.op);
      LastWordMore(s.user, event, Shape, id);
      LastWordMore(s.user, event, Binding, id);
    }
  }

  lemma UserGains(s: State, typeName: TypeName, record: Record, op: Op)
    ensures var event := RecordToEvent(typeName, record, op);
            Next(s, Change(typeName, record, op)).user == if event.Unrelated? then s.user else s.user + [event]
  {
  }

  /** The user events say exactly what the changes of the run do, type by type and id by id. */
  lemma {:induction false} UserSays(s: State, steps: seq<Step>, id: string)
    requires id != ""
    ensures var user := Run(s, steps).user;
            && LastWord(user, Shape, id) == LastChange(steps, ShapeRecord, id, LastWord(s.user, Shape, id))
            && LastWord(user, Binding, id) == LastChange(steps, BindingRecord, id, LastWord(s.user, Binding, id))
  {
    if |steps| > 0 {
      UserSays(s, steps[..|steps| - 1], id);
      StepSays(Run(s, steps[..|steps| - 1]), steps[|steps| - 1], id);
    }
  }

  /** The fold of the user events is the canvas as changed. */
  lemma UserCanvas(steps: seq<Step>)
    ensures AsChanged(Fold(Run(INIT, steps).user), steps)
  {
    var user := Run(INIT, steps).user;
    forall id
      ensures Told(Fold(user).shapes, id) == (if id == "" then Gone else LastChange(steps, ShapeRecord, id, Gone))
      ensures Told(Fold(user).bindings, id) == (if id == "" then Gone else LastChange(steps, BindingRecord, id, Gone))
    {
      LastWriterWins(user, Shape, id);
      LastWriterWins(user, Binding, id);
      if id != "" { UserSays(INIT, steps, id); } else { NothingSaid(user); }
    }
  }

  lemma {:induction false} NothingSaid(events: seq<CanvasEvent>)
    ensures LastWord(events, Shape, "") == Gone && LastWord(events, Binding, "") == Gone
  {
    if |events| > 0 { NothingSaid(events[..|events| - 1]); }
  }

  /** No id is used for a shape and a binding. */
  ghost predicate OneTypePerId(steps: seq<Step>) {
    forall i, j | 0 <= i < j < |steps| && steps[i].Change? && steps[j].Change? ::
      steps[i].typeName.OtherRecord? || steps[j].typeName.OtherRecord? ||
      steps[i].record.id != steps[j].record.id || steps[i].typeName == steps[j].typeName
  }

  /** A change of the run behind a user event: of its id, and of its kind. */
  ghost predicate ComesFrom(steps: seq<Step>, event: CanvasEvent) {
    && KindOf(event).Some?
    && exists i :: 0 <= i < |steps| && steps[i].Change? && steps[i].record.id == KindOf(event).value.0
         && (if KindOf(event).value.1.Shape? then steps[i].typeName.ShapeRecord? else steps[i].typeName.BindingRecord?)
  }

  lemma ComesFromMore(steps: seq<Step>, step: Step, event: CanvasEvent)
    requires ComesFrom(steps, event)
    ensures ComesFrom(steps + [step], event)
  {
    var i :| 0 <= i < |steps| && steps[i].Change? && steps[i].record.id == KindOf(event).value.0
      && (if KindOf(event).value.1.Shape? then steps[i].typeName.ShapeRecord? else steps[i].typeName.BindingRecord?);
    assert (steps + [step])[i] == steps[i];
  }

  lemma ComesNew(s: State, init: seq<Step>, step: Step, event: CanvasEvent)
    requires event in Next(s, step).user && event !in s.user
    ensures ComesFrom(init + [step], event)
  {
    if step.Change? { UserGains(s, step.typeName, step.record, step.op); }
    assert step.Change? && event == RecordToEvent(step.typeName, step.record, step.op);
    assert (init + [step])[|init|] == step;
  }

  lemma {:induction false} UserComesFrom(steps: seq<Step>, event: CanvasEvent)
    requires event in Run(INIT, steps).user
    ensures ComesFrom(steps, event)
  {
    if |steps| > 0 {
      var init, step := steps[..|steps| - 1], steps[|steps| - 1];
      assert steps == init + [step];
      if event in Run(INIT, init).user {
        UserComesFrom(init, event);
        ComesFromMore(init, step, event);
      } else {
        ComesNew(Run(INIT, init), init, step, event);
      }
    }
  }

  lemma OneTypeIsOneKind(steps: seq<Step>)
    requires OneTypePerId(steps)
    ensures OneKindPerId(Run(INIT, steps).user)
  {
    var user := Run(INIT, steps).user;
    forall a, b | a in user && b in user && KindOf(a).Some? && KindOf(b).Some? && KindOf(a).value.0 == KindOf(b).value.0
      ensures KindOf(a) == KindOf(b)
    {
      UserComesFrom(steps, a);
      UserComesFrom(steps, b);
      SameKindFrom(steps, a, b);
    }
  }

  lemma SameKindFrom(steps: seq<Step>, a: CanvasEvent, b: CanvasEvent)
    requires OneTypePerId(steps) && ComesFrom(steps, a) && ComesFrom(steps, b)
    requires KindOf(a).value.0 == KindOf(b).value.0
    ensures KindOf(a) == KindOf(b)
  {
    var i :| 0 <= i < |steps| && steps[i].Change? && steps[i].record.id == KindOf(a).value.0
      && (if KindOf(a).value.1.Shape? then steps[i].typeName.ShapeRecord? else steps[i].typeName.BindingRecord?);
    var j :| 0 <= j < |steps| && steps[j].Change? && steps[j].record.id == KindOf(b).value.0
      && (if KindOf(b).value.1.Shape? then steps[j].typeName.ShapeRecord? else steps[j].typeName.BindingRecord?);
    assert steps[i].typeName == steps[j].typeName;
  }

  /**
   * Debouncing preserves meaning: after any run of upserts, deletes and timer firings in which no
   * id is used for a shape and a binding, folding the emitted events and then the waiting ones
   * gives the canvas as the user's changes left it, read off the changes themselves; with nothing
   * waiting, the emitted events alone do.
   */
  lemma DebouncePreservesMeaning(steps: seq<Step>)
    requires OneTypePerId(steps)
    ensures var s := Run(INIT, steps);
            && AsChanged(Overlay(Fold(s.emitted), s.pending), steps)
            && (s.pending == map[] ==> AsChanged(Fold(s.emitted), steps))
  {
    OneTypeIsOneKind(steps);
    RunIsFaithful(steps);
    UserCanvas(steps);
  }

  /** A timer still held sends its upsert and frees its id; one that was cleared does nothing. */
  lemma FireSends(s: State, timer: nat)
    requires Paired(s)
    ensures timer !in s.timers ==> Next(s, Fire(timer)) == s
    ensures timer in s.timers ==>
              var t, id := Next(s, Fire(timer)), s.timers[timer].0;
              && id in s.pending && t.pending == s.pending - {id} && t.timers == s.timers - {timer} && t.user == s.user
              && t.emitted == s.emitted + [Upserted(s.pending[id].kind, Some(s.pending[id].record))]
  {
  }

  /** When the user pauses and the timers held fire, nothing waits any more. */
  lemma {:induction false} PauseSendsAll(s0: State, before: seq<Step>, s: State) returns (steps: seq<Step>)
    requires s == Run(s0, before) && Paired(s)
    ensures before <= steps && forall i :: |before| <= i < |steps| ==> steps[i].Fire?
    ensures Run(s0, steps).pending == map[] && Run(s0, steps).timers == map[] && Run(s0, steps).user == s.user
    decreases |s.timers|
  {
    steps := before;
    if s.timers != map[] {
      var timer :| timer in s.timers;
      var next := before + [Fire(timer)];
      assert next[..|before|] == before;
      FireSends(s, timer);
      StepPairs(s, Fire(timer));
      FewerTimers(s.timers, timer);
      steps := PauseSendsAll(s0, next, Next(s, Fire(timer)));
    } else {
      assert s.pending == map[];
    }
  }

  lemma FewerTimers(timers: map<nat, (string, Kind, Record)>, timer: nat)
    requires timer in timers
    ensures |timers - {timer}| == |timers| - 1
  {
    assert timers.Keys == (timers - {timer}).Keys + {timer};
    assert |(timers - {timer}).Keys| == |timers - {timer}|;
  }

  /** The last record of this type and id. */
  function LastOf(records: seq<(TypeName, Record)>, typeName: TypeName, id: string): Option<Record> {
    if |records| == 0 then None
    else
      var (name, record) := records[|records| - 1];
      if name == typeName && record.id == id then Some(record) else LastOf(records[..|records| - 1], typeName, id)
  }

  /** What a change set says of a record: an update, else an addition, else a removal, else nothing new. */
  function SetSays(removed: seq<(TypeName, Record)>, added: seq<(TypeName, Record)>, updated: seq<(TypeName, Record)>,
                   typeName: TypeName, id: string, before: Verdict): Verdict {
    if LastOf(updated, typeName, id).Some? then Present(LastOf(updated, typeName, id).value)
    else if LastOf(added, typeName, id).Some? then Present(LastOf(added, typeName, id).value)
    else if LastOf(removed, typeName, id).Some? then Gone
    else before
  }

  lemma {:induction false} ChangesSay(
      records: seq<(TypeName, Record)>, op: Op, typeName: TypeName, id: string, before: Verdict)
    ensures LastChange(Changes(records, op), typeName, id, before) ==
            match LastOf(records, typeName, id)
            case None => before
            case Some(record) => if op.Delete? then Gone else Present(record)
  {
    if |records| > 0 {
      assert Changes(records, op)[..|records| - 1] == Changes(records[..|records| - 1], op);
      ChangesSay(records[..|records| - 1], op, typeName, id, before);
    }
  }

  /** What one change set does to the user's canvas, for every record of either kind. */
  lemma StoreChangeSays(s: State, removed: seq<(TypeName, Record)>, added: seq<(TypeName, Record)>,
                        updated: seq<(TypeName, Record)>, id: string)
    requires id != ""
    ensures var gone := Run(s, Changes(removed, Delete));
            var t := Run(Run(gone, Changes(added, Upsert)), Changes(updated, Upsert));
            && LastWord(t.user, Shape, id) ==
                 SetSays(removed, added, updated, ShapeRecord, id, LastWord(s.user, Shape, id))
            && LastWord(t.user, Binding, id) ==
                 SetSays(removed, added, updated, BindingRecord, id, LastWord(s.user, Binding, id))
  {
    var gone := Run(s, Changes(removed, Delete));
    var more := Run(gone, Changes(added, Upsert));
    UserSays(s, Changes(removed, Delete), id);
    UserSays(gone, Changes(added, Upsert), id);
    UserSays(more, Changes(updated, Upsert), id);
    ChangesSay(removed, Delete, ShapeRecord, id, LastWord(s.user, Shape, id));
    ChangesSay(removed, Delete, BindingRecord, id, LastWord(s.user, Binding, id));
    ChangesSay(added, Upsert, ShapeRecord, id, LastWord(gone.user, Shape, id));
    ChangesSay(added, Upsert, BindingRecord, id, LastWord(gone.user, Binding, id));
    ChangesSay(updated, Upsert, ShapeRecord, id, LastWord(more.user, Shape, id));
    ChangesSay(updated, Upsert, BindingRecord, id, LastWord(more.user, Binding, id));
  }

  function Changes(records: seq<(TypeName, Record)>, op: Op): (steps: seq<Step>)
    ensures |steps| == |records|
  {
    seq(|records|, i requires 0 <= i < |records| => Change(records[i].0, records[i].1, op))
  }

  lemma RunOneMore(s: State, records: seq<(TypeName, Record)>, op: Op, i: nat)
    requires i < |records|
    ensures Run(s, Changes(records[..i + 1], op)) ==
            Next(Run(s, Changes(records[..i], op)), Change(records[i].0, records[i].1, op))
  {
    assert Changes(records[..i + 1], op)[..i] == Changes(records[..i], op);
  }

  // ----- the bridge object --------------------------------------------------------

  class DebouncedBridge {
    var pending: map<string, Waiting>
    var timers: map<nat, (string, Kind, Record)>
    var nextTimer: nat
    var emitted: seq<CanvasEvent>
    ghost var user: seq<CanvasEvent>

    ghost function View(): State reads this {
      State(pending, timers, nextTimer, emitted, user)
    }

    constructor ()
      ensures View() == INIT
    {
      pending, timers, nextTimer, emitted, user := map[], map[], 0, [], [];
    }

    method OnUpsert(kind: Kind, record: Record)
      modifies this
      ensures View() == ScheduleUpsert(old(View()), kind, record)
    {
      if record.id in pending { timers := timers - {pending[record.id].timer}; }
      timers := timers[nextTimer := (record.id, kind, record)];
      pending := pending[record.id := Waiting(nextTimer, kind, record)];
      nextTimer := nextTimer + 1;
      user := user + [Upserted(kind, Some(record))];
    }

    method OnDelete(kind: Kind, id: string)
      modifies this
      ensures View() == FlushForDelete(old(View()), kind, id)
    {
      if id in pending { timers := timers - {pending[id].timer}; }
      pending := pending - {id};
      emitted := emitted + [Deleted(kind, Some(id))];
      user := user + [Deleted(kind, Some(id))];
    }

    method OnTimer(timer: nat)
      requires timer in timers
      modifies this
      ensures View() == TimerFires(old(View()), timer)
    {
      var (id, kind, record) := timers[timer];
      timers := timers - {timer};
      pending := pending - {id};
      emitted := emitted + [Upserted(kind, Some(record))];
    }

    /**
     * The unmount cleanup: whatever order it visits the waiting upserts in, none is lost, and no
     * timer is left to fire.  What was emitted then means what the user did if it did so far.
     */
    method Cleanup()
      requires Paired(View())
      modifies this
      ensures pending == map[] && timers == map[] && user == old(user)
      ensures Fold(emitted) == Overlay(Fold(old(emitted)), old(pending))
      ensures Faithful(old(View())) ==> Fold(emitted) == Fold(user)
    {
      var left := pending;
      while left != map[]
        invariant pending == old(pending) && user == old(user)
        invariant forall id :: id in left ==> id in pending && left[id] == pending[id]
        invariant forall t :: t in timers ==> t in old(timers) && timers[t] == old(timers)[t] && timers[t].0 in left
        invariant Overlay(Fold(emitted), left) == Overlay(Fold(old(emitted)), old(pending))
        decreases left.Keys
      {
        var id :| id in left;
        timers := timers - {left[id].timer};
        SendOne(emitted, left, id);
        emitted := emitted + [Upserted(left[id].kind, Some(left[id].record))];
        left := left - {id};
      }
      pending := map[];
      NothingWaits(Fold(emitted));
    }

    method OnRecords(records: seq<(TypeName, Record)>, op: Op)
      modifies this
      ensures View() == Run(old(View()), Changes(records, op))
    {
      for i := 0 to |records|
        invariant View() == Run(old(View()), Changes(records[..i], op))
      {
        RunOneMore(old(View()), records, op, i);
        var (typeName, record) := records[i];
        match RecordToEvent(typeName, record, op)
        case Upserted(kind, _) => OnUpsert(kind, record);
        case Deleted(kind, _) => OnDelete(kind, record.id);
        case Unrelated =>
      }
      assert records[..|records|] == records;
    }

    /** One change set of the editor's store: removals first, so no upsert overtakes its delete. */
    method OnStoreChange(
        removed: seq<(TypeName, Record)>, added: seq<(TypeName, Record)>, updated: seq<(TypeName, Record)>)
      modifies this
      ensures var gone := Run(old(View()), Changes(removed, Delete));
              View() == Run(Run(gone, Changes(added, Upsert)), Changes(updated, Upsert))
      ensures forall id | id != "" ::
                && LastWord(user, Shape, id) ==
                     SetSays(removed, added, updated, ShapeRecord, id, LastWord(old(user), Shape, id))
                && LastWord(user, Binding, id) ==
                     SetSays(removed, added, updated, BindingRecord, id, LastWord(old(user), Binding, id))
    {
      ghost var before := View();
      OnRecords(removed, Delete);
      OnRecords(added, Upsert);
      OnRecords(updated, Upsert);
      forall id | id != ""
        ensures LastWord(user, Shape, id) ==
                SetSays(removed, added, updated, ShapeRecord, id, LastWord(before.user, Shape, id))
        ensures LastWord(user, Binding, id) ==
                SetSays(removed, added, updated, BindingRecord, id, LastWord(before.user, Binding, id))
      {
        StoreChangeSays(before, removed, added, updated, id);
      }
    }
  }
}

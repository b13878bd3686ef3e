/**
 * The canvas projection (packages/cli/src/commands/folds/canvas.ts): the map of shapes and the
 * map of bindings that a run of canvas events leaves behind.
 */
module CanvasFold {
  import opened Wrappers

  datatype Kind = Shape | Binding

  datatype Record = Record(id: string, body: string)

  /** The four canvas event types, a payload field that may be missing, and everything else. */
  datatype CanvasEvent =
    | Upserted(kind: Kind, record: Option<Record>)
    | Deleted(kind: Kind, id: Option<string>)
    | Unrelated

  datatype Canvas = Canvas(shapes: map<string, Record>, bindings: map<string, Record>)

  const INITIAL := Canvas(map[], map[])

  function Table(c: Canvas, kind: Kind): map<string, Record> {
    if kind.Shape? then c.shapes else c.bindings
  }

  function WithTable(c: Canvas, kind: Kind, table: map<string, Record>): Canvas {
    if kind.Shape? then c.(shapes := table) else c.(bindings := table)
  }

  /** An empty or missing id makes an event a no-op. */
  function Apply(c: Canvas, event: CanvasEvent): Canvas {
    match event
    case Upserted(kind, record) =>
      if record.Some? && record.value.id != ""
      then WithTable(c, kind, Table(c, kind)[record.value.id := record.value]) else c
    case Deleted(kind, id) =>
      if id.Some? && id.value != "" then WithTable(c, kind, Table(c, kind) - {id.value}) else c
    case Unrelated => c
  }

  function Fold(events: seq<CanvasEvent>): Canvas {
    if |events| == 0 then INITIAL else Apply(Fold(events[..|events| - 1]), events[|events| - 1])
  }

  lemma FoldOneMore(events: seq<CanvasEvent>, event: CanvasEvent)
    ensures Fold(events + [event]) == Apply(Fold(events), event)
  {
    assert (events + [event])[..|events|] == events;
  }

  /** What an event says about one record: nothing, its new body, or that it is gone. */
  datatype Verdict = Silent | Present(record: Record) | Gone

  function Says(event: CanvasEvent, kind: Kind, id: string): Verdict {
    if id == "" then Silent
    else match event
      case Upserted(k, Some(r)) => if k == kind && r.id == id then Present(r) else Silent
      case Deleted(k, Some(d)) => if k == kind && d == id then Gone else Silent
      case _ => Silent
  }

  /** The last event that says something decides. */
  function LastWord(events: seq<CanvasEvent>, kind: Kind, id: string): Verdict {
    if |events| == 0 then Gone
    else
      var said := Says(events[|events| - 1], kind, id);
      if said.Silent? then LastWord(events[..|events| - 1], kind, id) else said
  }

  /** The fold holds, kind by kind and id by id, exactly what was said last. */
  lemma {:induction false} LastWriterWins(events: seq<CanvasEvent>, kind: Kind, id: string)
    ensures var table := Table(Fold(events), kind);
      LastWord(events, kind, id) == if id in table then Present(table[id]) else Gone
  {
    if |events| > 0 {
      LastWriterWins(events[..|events| - 1], kind, id);
    }
  }

  /** The state object `reduce` is handed and changes in place. */
  class CanvasState {
    var shapes: map<string, Record>
    var bindings: map<string, Record>

    ghost function View(): Canvas reads this {
      Canvas(shapes, bindings)
    }

    constructor ()
      ensures View() == INITIAL
    {
      shapes, bindings := map[], map[];
    }

    method Reduce(event: CanvasEvent)
      modifies this
      ensures View() == Apply(old(View()), event)
    {
      match event
      case Upserted(kind, record) =>
        if record.Some? && record.value.id != "" {
          if kind.Shape? { shapes := shapes[record.value.id := record.value]; }
          else { bindings := bindings[record.value.id := record.value]; }
        }
      case Deleted(kind, id) =>
        if id.Some? && id.value != "" {
          if kind.Shape? { shapes := shapes - {id.value}; } else { bindings := bindings - {id.value}; }
        }
      case Unrelated =>
    }

    /** The reduction loop of the CLI. */
    method ReduceAll(events: seq<CanvasEvent>)
      requires View() == INITIAL
      modifies this
      ensures View() == Fold(events)
    {
      for i := 0 to |events|
        invariant View() == Fold(events[..i])
      {
        assert events[..i + 1][..i] == events[..i];
        Reduce(events[i]);
      }
      assert events[..|events|] == events;
    }
  }
}

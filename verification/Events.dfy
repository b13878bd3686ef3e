/**
 * Events, filters and exclusive cursors (packages/schema/src, packages/core/src/EventStore.ts)
 * and the reads every store offers over its log.
 */
module Events {
  import opened Wrappers

  /**
   * An id is the number its twenty-six letters spell; `Ulid.StringOrderIsIdOrder` shows that the
   * stores' string comparisons are comparisons of these numbers.
   */
  datatype Event = Event(
    id: nat,
    kind: string,
    actor: string,
    source: string,
    timestamp: int,
    causedBy: Option<seq<nat>>,
    payload: string)

  datatype EventInput = EventInput(
    kind: string,
    actor: Option<string>,
    source: Option<string>,
    causedBy: Option<seq<nat>>,
    payload: string)

  datatype Cursor = Earliest | Latest | At(id: nat)

  datatype Filter = Filter(
    types: Option<seq<string>>,
    actors: Option<seq<string>>,
    sources: Option<seq<string>>,
    since: Option<int>)

  /** `glob(kind, pattern)` is the verdict of the glob library, which is not part of this model. */
  type Glob = (string, string) -> bool

  function MatchFilter(glob: Glob, filter: Option<Filter>): Event -> bool {
    (e: Event) =>
      filter.None? ||
      var f := filter.value;
      && (f.types.Some? ==> exists g :: g in f.types.value && glob(e.kind, g))
      && (f.actors.Some? ==> e.actor in f.actors.value)
      && (f.sources.Some? ==> e.source in f.sources.value)
      && (f.since.Some? ==> e.timestamp >= f.since.value)
  }

  const NO_FILTER := Filter(None, None, None, None)

  /** A filter is the conjunction of what its fields say one by one, and one that says nothing accepts all. */
  lemma FilterIsConjunction(glob: Glob, f: Filter, e: Event)
    ensures MatchFilter(glob, Some(f))(e) <==>
              && MatchFilter(glob, Some(NO_FILTER.(types := f.types)))(e)
              && MatchFilter(glob, Some(NO_FILTER.(actors := f.actors)))(e)
              && MatchFilter(glob, Some(NO_FILTER.(sources := f.sources)))(e)
              && MatchFilter(glob, Some(NO_FILTER.(since := f.since)))(e)
    ensures MatchFilter(glob, None)(e) && MatchFilter(glob, Some(NO_FILTER))(e)
  {
  }

  /** Nothing a filter does not mention changes its verdict, nor do id, causes and payload. */
  lemma FilterReadsItsFields(glob: Glob, f: Filter, a: Event, b: Event)
    requires f.types.Some? ==> a.kind == b.kind
    requires f.actors.Some? ==> a.actor == b.actor
    requires f.sources.Some? ==> a.source == b.source
    requires f.since.Some? ==> a.timestamp == b.timestamp
    ensures MatchFilter(glob, Some(f))(a) == MatchFilter(glob, Some(f))(b)
  {
  }

  /** A kind that one of the globs accepts, a listed actor, a listed source, and `since` inclusive. */
  ghost predicate FieldsMatch(glob: Glob, f: Filter, e: Event) {
    && (f.types.None? || exists k :: 0 <= k < |f.types.value| && glob(e.kind, f.types.value[k]))
    && (f.actors.None? || e.actor in f.actors.value)
    && (f.sources.None? || e.source in f.sources.value)
    && (f.since.None? || f.since.value <= e.timestamp)
  }

  /** What a reader asks of an event: its filter's fields, if it gave a filter. */
  ghost predicate AskedFor(glob: Glob, filter: Option<Filter>, e: Event) {
    filter.Some? ==> FieldsMatch(glob, filter.value, e)
  }

  lemma FilterMeans(glob: Glob, f: Filter, e: Event)
    ensures MatchFilter(glob, Some(f))(e) <==> FieldsMatch(glob, f, e)
  {
    if f.types.Some? && MatchFilter(glob, Some(f))(e) {
      var g :| g in f.types.value && glob(e.kind, g);
      var k :| 0 <= k < |f.types.value| && f.types.value[k] == g;
      assert glob(e.kind, f.types.value[k]);
    }
  }

  /** What a read under a filter gives, from the fields of the log's events. */
  lemma FilteredRead(glob: Glob, f: Filter, log: seq<Event>, c: Cursor, e: Event)
    ensures e in Rest(log, c, MatchFilter(glob, Some(f))) <==>
              e in log && (c.Earliest? || (c.At? && c.id < e.id)) && FieldsMatch(glob, f, e)
  {
    FilterMeans(glob, f, e);
    SelectMember(log, Wants(c, MatchFilter(glob, Some(f))), e);
  }

  /** Exclusive: the event the cursor names is not after it, and nothing is after "latest". */
  predicate AfterCursor(c: Cursor, e: Event) {
    c.Earliest? || (c.At? && e.id > c.id)
  }

  function Wants(c: Cursor, p: Event -> bool): Event -> bool {
    e => AfterCursor(c, e) && p(e)
  }

  function AfterId(id: nat): Event -> bool {
    (e: Event) => e.id > id
  }

  /** `Array.filter`. */
  function Select(s: seq<Event>, p: Event -> bool): seq<Event> {
    if |s| == 0 then [] else
      Select(s[..|s| - 1], p) + if p(s[|s| - 1]) then [s[|s| - 1]] else []
  }

  /** `slice(0, limit)`, which counts from the end when the limit is negative. */
  function Slice(s: seq<Event>, limit: int): seq<Event> {
    if limit < 0 then s[..if |s| + limit < 0 then 0 else |s| + limit]
    else s[..if limit < |s| then limit else |s|]
  }

  function QueryAfter(log: seq<Event>, c: Cursor, p: Event -> bool, limit: int): seq<Event> {
    match c
    case Latest => []
    case Earliest => Slice(Select(log, p), limit)
    case At(id) => Slice(Select(Select(log, AfterId(id)), p), limit)
  }

  function LatestCursor(log: seq<Event>): Cursor {
    if |log| > 0 then At(log[|log| - 1].id) else Earliest
  }

  function Flatten(parts: seq<seq<Event>>): seq<Event> {
    if |parts| == 0 then [] else Flatten(parts[..|parts| - 1]) + parts[|parts| - 1]
  }

  /** Strictly id-ordered, so in particular without repeats. */
  ghost predicate Ordered(s: seq<Event>) {
    forall i, j :: 0 <= i < j < |s| ==> s[i].id < s[j].id
  }

  // ----- Select -------------------------------------------------------------------

  lemma {:induction false} SelectConcat(a: seq<Event>, b: seq<Event>, p: Event -> bool)
    ensures Select(a + b, p) == Select(a, p) + Select(b, p)
  {
    if |b| == 0 {
      assert a + b == a;
    } else {
      var b' := b[..|b| - 1];
      assert (a + b)[..|a + b| - 1] == a + b';
      SelectConcat(a, b', p);
    }
  }

  lemma {:induction false} SelectAgree(s: seq<Event>, p: Event -> bool, q: Event -> bool)
    requires forall e :: e in s ==> p(e) == q(e)
    ensures Select(s, p) == Select(s, q)
  {
    if |s| > 0 { SelectAgree(s[..|s| - 1], p, q); }
  }

  lemma {:induction false} SelectAll(s: seq<Event>, p: Event -> bool)
    requires forall e :: e in s ==> p(e)
    ensures Select(s, p) == s
  {
    if |s| > 0 {
      SelectAll(s[..|s| - 1], p);
      assert s == s[..|s| - 1] + [s[|s| - 1]];
    }
  }

  lemma {:induction false} SelectNone(s: seq<Event>, p: Event -> bool)
    requires forall e :: e in s ==> !p(e)
    ensures Select(s, p) == []
  {
    if |s| > 0 { SelectNone(s[..|s| - 1], p); }
  }

  lemma {:induction false} SelectMember(s: seq<Event>, p: Event -> bool, e: Event)
    ensures e in Select(s, p) <==> e in s && p(e)
  {
    if |s| > 0 {
      SelectMember(s[..|s| - 1], p, e);
      assert s == s[..|s| - 1] + [s[|s| - 1]];
    }
  }

  lemma SelectMembers(s: seq<Event>, p: Event -> bool)
    ensures forall e :: e in Select(s, p) <==> e in s && p(e)
  {
    forall e ensures e in Select(s, p) <==> e in s && p(e) { SelectMember(s, p, e); }
  }

  lemma {:induction false} SelectOrdered(s: seq<Event>, p: Event -> bool)
    requires Ordered(s)
    ensures Ordered(Select(s, p))
  {
    if |s| > 0 {
      SelectOrdered(s[..|s| - 1], p);
      SelectMembers(s[..|s| - 1], p);
      var t := Select(s[..|s| - 1], p);
      forall i | 0 <= i < |t| ensures t[i].id < s[|s| - 1].id {
        assert t[i] in s[..|s| - 1];
      }
    }
  }

  lemma {:induction false} SelectTwice(s: seq<Event>, p: Event -> bool, q: Event -> bool, r: Event -> bool)
    requires forall e :: e in s ==> r(e) == (p(e) && q(e))
    ensures Select(Select(s, p), q) == Select(s, r)
  {
    if |s| > 0 {
      var s', e := s[..|s| - 1], s[|s| - 1];
      SelectTwice(s', p, q, r);
      SelectConcat(Select(s', p), if p(e) then [e] else [], q);
      assert Select([e], q) == if q(e) then [e] else [];
    }
  }

  /** Where a selected event ends up. */
  lemma SelectAt(s: seq<Event>, p: Event -> bool, n: nat)
    requires n < |s| && p(s[n])
    ensures var k := |Select(s[..n], p)|;
            k < |Select(s, p)| && Select(s, p)[k] == s[n]
  {
    assert s == s[..n + 1] + s[n + 1..] && s[..n + 1][..n] == s[..n];
    SelectConcat(s[..n + 1], s[n + 1..], p);
  }

  // ----- reads after a cursor -----------------------------------------------------

  /** The two-step filter of `queryAfter` is one filtered read after the cursor, cut at the limit. */
  lemma QueryAfterMeans(log: seq<Event>, c: Cursor, p: Event -> bool, limit: int)
    ensures QueryAfter(log, c, p, limit) == Slice(Select(log, Wants(c, p)), limit)
  {
    match c {
      case Latest => SelectNone(log, Wants(c, p));
      case Earliest => SelectAgree(log, p, Wants(c, p));
      case At(id) => SelectTwice(log, AfterId(id), p, Wants(c, p));
    }
  }

  /**
   * A page holds as many events as the limit allows and are left, and they are the first of those;
   * a negative limit leaves out as many at the end.
   */
  lemma PageIsFull(log: seq<Event>, c: Cursor, p: Event -> bool, limit: int)
    ensures var page, rest := QueryAfter(log, c, p, limit), Rest(log, c, p);
            && page <= rest
            && (limit >= 0 ==> |page| == if limit < |rest| then limit else |rest|)
            && (limit < 0 ==> |page| == if -limit < |rest| then |rest| - -limit else 0)
  {
    QueryAfterMeans(log, c, p, limit);
  }

  /** Reading on from a store's latest cursor gives exactly what is appended later. */
  lemma LatestCursorIsTheEnd(log: seq<Event>, more: seq<Event>, p: Event -> bool)
    requires Ordered(log + more)
    ensures Rest(log + more, LatestCursor(log), p) == Select(more, p)
  {
    var c, all := LatestCursor(log), log + more;
    if |log| > 0 { assert all[|log| - 1] == log[|log| - 1]; }
    forall e | e in log ensures !Wants(c, p)(e) {
      var i :| 0 <= i < |log| && log[i] == e;
      assert all[i] == e;
    }
    forall e | e in more ensures Wants(c, p)(e) == p(e) {
      var i :| 0 <= i < |more| && more[i] == e;
      assert all[|log| + i] == e;
    }
    SelectConcat(log, more, Wants(c, p));
    SelectNone(log, Wants(c, p));
    SelectAgree(more, Wants(c, p), p);
  }

  /** A filter that turns from no to yes along a sequence selects its tail. */
  lemma {:induction false} SelectSplit(s: seq<Event>, p: Event -> bool, k: nat)
    requires k <= |s|
    requires forall i :: 0 <= i < k ==> !p(s[i])
    requires forall i :: k <= i < |s| ==> p(s[i])
    ensures Select(s, p) == s[k..]
  {
    if |s| > 0 {
      var init := s[..|s| - 1];
      SelectSplit(init, p, if k < |s| then k else k - 1);
      if k < |s| { assert s[k..] == init[k..] + [s[|s| - 1]]; }
    }
  }

  lemma LaterInOrder(s: seq<Event>, k: nat)
    requires Ordered(s) && k < |s|
    ensures Select(s, AfterId(s[k].id)) == s[k + 1..]
  {
    SelectSplit(s, AfterId(s[k].id), k + 1);
  }

  /** Reading on from a delivered event gives exactly what the first read had after it. */
  lemma ReadOn(log: seq<Event>, c: Cursor, p: Event -> bool, k: nat)
    requires Ordered(log) && k < |Select(log, Wants(c, p))|
    ensures var all := Select(log, Wants(c, p));
            Select(log, Wants(At(all[k].id), p)) == all[k + 1..]
  {
    var all := Select(log, Wants(c, p));
    SelectOrdered(log, Wants(c, p));
    SelectMember(log, Wants(c, p), all[k]);
    SelectTwice(log, Wants(c, p), AfterId(all[k].id), Wants(At(all[k].id), p));
    LaterInOrder(all, k);
  }

  /** One unlimited filtered read after the cursor. */
  function Rest(log: seq<Event>, c: Cursor, p: Event -> bool): seq<Event> {
    Select(log, Wants(c, p))
  }

  /** The cursor after the given deliveries. */
  function Position(cursor: Cursor, delivered: seq<Event>): Cursor {
    if |delivered| == 0 then cursor else At(delivered[|delivered| - 1].id)
  }

  /** Reading on after some of the deliveries of a read. */
  lemma RestAt(log: seq<Event>, c: Cursor, p: Event -> bool, x: seq<Event>)
    requires Ordered(log) && x <= Rest(log, c, p)
    ensures Rest(log, Position(c, x), p) == Rest(log, c, p)[|x|..]
  {
    if |x| > 0 { ReadOn(log, c, p, |x| - 1); }
  }

  lemma RestGrows(log: seq<Event>, log': seq<Event>, c: Cursor, p: Event -> bool)
    requires log <= log'
    ensures Rest(log', c, p) == Rest(log, c, p) + Rest(log'[|log|..], c, p)
  {
    assert log' == log + log'[|log|..];
    SelectConcat(log, log'[|log|..], Wants(c, p));
  }

  /** What a slice takes, and that slicing the remainder again takes nothing more unless the limit is positive. */
  lemma SliceTakes(s: seq<Event>, limit: int)
    ensures var n := |Slice(s, limit)|;
            && n <= |s| && Slice(s, limit) == s[..n] && s == s[..n] + s[n..]
            && (limit <= 0 ==> Slice(s[n..], limit) == [])
            && (limit >= 1 && |s| > 0 ==> n > 0)
  {
  }

  /** One page is a prefix of what remains, and what then remains is the remainder. */
  lemma PageStep(log: seq<Event>, at: Cursor, p: Event -> bool, limit: int)
    requires Ordered(log) && QueryAfter(log, at, p, limit) != []
    ensures var page := QueryAfter(log, at, p, limit);
            var next := At(page[|page| - 1].id);
            Rest(log, at, p) == page + Rest(log, next, p) && (limit <= 0 ==> QueryAfter(log, next, p, limit) == [])
  {
    QueryAfterMeans(log, at, p, limit);
    var page, rest := QueryAfter(log, at, p, limit), Rest(log, at, p);
    SliceTakes(rest, limit);
    var next := At(page[|page| - 1].id);
    assert rest[|page| - 1] == page[|page| - 1];
    ReadOn(log, at, p, |page| - 1);
    QueryAfterMeans(log, next, p, limit);
  }

  /** An empty page under a positive limit means nothing is left. */
  lemma NoPage(log: seq<Event>, at: Cursor, p: Event -> bool, limit: int)
    requires QueryAfter(log, at, p, limit) == [] && limit >= 1
    ensures Rest(log, at, p) == []
  {
    QueryAfterMeans(log, at, p, limit);
    SliceTakes(Rest(log, at, p), limit);
  }

  /** What the pages so far and what is left after them make together. */
  ghost predicate Paged(log: seq<Event>, c: Cursor, p: Event -> bool, limit: int, all: seq<Event>, at: Cursor) {
    && all + Rest(log, at, p) == Rest(log, c, p)
    && (limit <= 0 ==> all + QueryAfter(log, at, p, limit) == QueryAfter(log, c, p, limit))
  }

  lemma PagedOn(log: seq<Event>, c: Cursor, p: Event -> bool, limit: int, all: seq<Event>, at: Cursor)
    requires Ordered(log) && Paged(log, c, p, limit, all, at) && QueryAfter(log, at, p, limit) != []
    ensures var page := QueryAfter(log, at, p, limit);
            var next := At(page[|page| - 1].id);
            Paged(log, c, p, limit, all + page, next) && |Rest(log, next, p)| < |Rest(log, at, p)|
  {
    var page := QueryAfter(log, at, p, limit);
    PageStep(log, at, p, limit);
    Associates(all, page, Rest(log, At(page[|page| - 1].id), p));
    assert (all + page) + [] == all + page;
  }

  lemma PagedOut(log: seq<Event>, c: Cursor, p: Event -> bool, limit: int, all: seq<Event>, at: Cursor)
    requires Paged(log, c, p, limit, all, at) && QueryAfter(log, at, p, limit) == []
    ensures all == if limit >= 1 then Rest(log, c, p) else QueryAfter(log, c, p, limit)
  {
    assert all + [] == all;
    if limit >= 1 { NoPage(log, at, p, limit); }
  }

  /**
   * The paging loop of a `queryAfter` client: read a page, go on from its last id, stop at an
   * empty page.  Over an ordered log it ends for every limit; with a limit of at least one the
   * pages joined are the unlimited read, otherwise paging adds nothing to the first page.
   */
  method ReadAllPages(log: seq<Event>, c: Cursor, p: Event -> bool, limit: int) returns (all: seq<Event>)
    requires Ordered(log)
    ensures limit >= 1 ==> all == Rest(log, c, p)
    ensures limit <= 0 ==> all == QueryAfter(log, c, p, limit)
  {
    all := [];
    var at, page := c, QueryAfter(log, c, p, limit);
    assert [] + Rest(log, c, p) == Rest(log, c, p) && [] + page == page;
    while page != []
      invariant page == QueryAfter(log, at, p, limit)
      invariant Paged(log, c, p, limit, all, at)
      decreases |Rest(log, at, p)|
    {
      PagedOn(log, c, p, limit, all, at);
      all := all + page;
      at := At(page[|page| - 1].id);
      page := QueryAfter(log, at, p, limit);
    }
    PagedOut(log, c, p, limit, all, at);
  }
}

/**
 * The file store's shared file, in-memory log and read offset
 * (packages/store-file/src/FileStore.ts).
 */
module FileStore {
  import opened Wrappers
  import opened Events
  import opened Recovery

  /**
   * The file may grow by bytes of other processes at any time and in any cut.  A poll reads from
   * the offset to the end and takes in the complete lines.  An append writes its bytes first and
   * takes its events in under the lock later, so other steps may fall in between.
   */
  datatype State = State(file: seq<Byte>, store: seq<Event>, readBytes: nat)

  /** A process opening the file: recover, cut the torn tail, start reading after what was kept. */
  function Open(decode: Decoder, raw: seq<Byte>): State {
    var r := Recover(decode, raw);
    State(raw[..r.validBytes], r.events, r.validBytes)
  }

  function Unread(s: State): seq<Byte> {
    if s.readBytes <= |s.file| then s.file[s.readBytes..] else []
  }

  function NewTo(known: seq<Event>): Event -> bool {
    (e: Event) => forall k :: k in known ==> k.id != e.id
  }

  /** The decoded events the log does not hold an id of; repeats among themselves stay. */
  function Fresh(known: seq<Event>, es: seq<Event>): seq<Event> {
    Select(es, NewTo(known))
  }

  /** What a poll has read and not yet taken in. */
  datatype Found = Found(events: seq<Event>, consumed: nat)

  /** The first half of a poll: look at the file, nothing changes. */
  function PollRead(decode: Decoder, s: State): Found {
    var scan := Scan(decode, Unread(s));
    Found(scan.events, scan.consumed)
  }

  /** The second half, under the lock. */
  function PollCommit(s: State, found: Found): State {
    s.(store := s.store + Fresh(s.store, found.events), readBytes := s.readBytes + found.consumed)
  }

  /** A poll with nothing in between. */
  function PollOnce(decode: Decoder, s: State): State {
    PollCommit(s, PollRead(decode, s))
  }

  /** The bytes `append` counts for a batch: each line and its newline, nothing for no lines. */
  function CountedBytes(encode: Encoder, batch: seq<Event>): nat {
    if |batch| == 0 then 0 else CountedBytes(encode, batch[..|batch| - 1]) + |encode(batch[|batch| - 1])| + 1
  }

  function Grow(s: State, chunk: seq<Byte>): State {
    s.(file := s.file + chunk)
  }

  /** The first half of `append`: the bytes are in the file, nothing else has changed. */
  function WriteBatch(encode: Encoder, s: State, batch: seq<Event>): State {
    Grow(s, BatchBytes(encode, batch))
  }

  /** The second half, under the lock. */
  function CommitBatch(encode: Encoder, s: State, batch: seq<Event>): State {
    s.(store := s.store + batch, readBytes := s.readBytes + CountedBytes(encode, batch))
  }

  /** An append with nothing in between. */
  function AppendBatch(encode: Encoder, s: State, batch: seq<Event>): State {
    CommitBatch(encode, WriteBatch(encode, s, batch), batch)
  }

  /** What happens to the store: other processes write, the poll fiber wakes, this process appends. */
  datatype Act =
    | Foreign(chunk: seq<Byte>)
    | Poll
    | Append(batch: seq<Event>)

  function Perform(encode: Encoder, decode: Decoder, s: State, act: Act): State {
    match act
    case Foreign(chunk) => Grow(s, chunk)
    case Poll => PollOnce(decode, s)
    case Append(batch) => AppendBatch(encode, s, batch)
  }

  function Run(encode: Encoder, decode: Decoder, s: State, acts: seq<Act>): State {
    if |acts| == 0 then s else
      Perform(encode, decode, Run(encode, decode, s, acts[..|acts| - 1]), acts[|acts| - 1])
  }

  ghost predicate DistinctIds(s: seq<Event>) {
    forall i, j :: 0 <= i < j < |s| ==> s[i].id != s[j].id
  }

  // ----- the offset ---------------------------------------------------------------

  lemma {:induction false} CountedIsWritten(encode: Encoder, batch: seq<Event>)
    ensures CountedBytes(encode, batch) == |Unlines(Encoded(encode, batch))|
    ensures |BatchBytes(encode, batch)| == if |batch| == 0 then 1 else CountedBytes(encode, batch)
  {
    PayloadIs(Encoded(encode, batch));
    if |batch| > 0 {
      var init := batch[..|batch| - 1];
      CountedIsWritten(encode, init);
      assert Encoded(encode, batch)[..|batch| - 1] == Encoded(encode, init);
    } else {
      assert |Unlines([[]])| == 1 by { UnlinesOne([]); }
    }
  }

  /**
   * What the store should have taken in by now: the log as it was at byte `from` and every event
   * on a complete line up to the offset, the offset on a line boundary and inside the file.
   */
  ghost predicate Synced(decode: Decoder, base: seq<Event>, from: nat, s: State) {
    && from <= s.readBytes <= |s.file|
    && Terminated(s.file[from..s.readBytes])
    && s.store == base + Scan(decode, s.file[from..s.readBytes]).events
  }

  /** The log a single scan of everything from byte `from` on would give. */
  function OneScan(decode: Decoder, base: seq<Event>, from: nat, s: State): seq<Event>
    requires from <= |s.file|
  {
    base + Scan(decode, s.file[from..]).events
  }

  lemma CutAt(s: State, from: nat)
    requires from <= s.readBytes <= |s.file|
    ensures s.file[from..] == s.file[from..s.readBytes] + Unread(s)
  {
  }

  /** Taking in whole lines right after the offset, and moving it past them, stays in step. */
  lemma AdvanceSyncs(decode: Decoder, base: seq<Event>, from: nat, s: State, s': State, more: seq<Byte>)
    requires Synced(decode, base, from, s) && Terminated(more)
    requires s.readBytes + |more| == s'.readBytes <= |s'.file|
    requires s'.file[..s.readBytes] == s.file[..s.readBytes] && s'.file[s.readBytes..s'.readBytes] == more
    requires s'.store == s.store + Scan(decode, more).events
    ensures Synced(decode, base, from, s')
  {
    var read := s.file[from..s.readBytes];
    assert s'.file[from..s'.readBytes] == read + more by {
      assert s'.file[from..s.readBytes] == s'.file[..s.readBytes][from..];
      assert read == s.file[..s.readBytes][from..];
    }
    ScanAfterTerminated(decode, read, more);
    Associates(base, Scan(decode, read).events, Scan(decode, more).events);
  }

  /** What one scan would give is what has been taken in and what is unread. */
  lemma OneScanSplits(decode: Decoder, base: seq<Event>, from: nat, s: State)
    requires Synced(decode, base, from, s)
    ensures OneScan(decode, base, from, s) == s.store + Scan(decode, Unread(s)).events
    ensures from + Consumed(s.file[from..]) == s.readBytes + Consumed(Unread(s))
  {
    var read := s.file[from..s.readBytes];
    CutAt(s, from);
    ScanAfterTerminated(decode, read, Unread(s));
    Associates(base, Scan(decode, read).events, Scan(decode, Unread(s)).events);
  }

  /** The unread events are new: none has the id of one already taken in. */
  ghost predicate MeetsNew(decode: Decoder, s: State) {
    forall a, b :: a in s.store && b in Scan(decode, Unread(s)).events ==> a.id != b.id
  }

  lemma FreshExactly(known: seq<Event>, es: seq<Event>)
    ensures Fresh(known, es) == es <==> forall a, b :: a in known && b in es ==> a.id != b.id
  {
    if forall e :: e in es ==> NewTo(known)(e) {
      SelectAll(es, NewTo(known));
    } else {
      var e :| e in es && !NewTo(known)(e);
      SelectMember(es, NewTo(known), e);
    }
  }

  lemma SameTail(a: seq<Event>, b: seq<Event>, c: seq<Event>)
    ensures a + b == a + c <==> b == c
  {
    assert b == (a + b)[|a|..] && c == (a + c)[|a|..];
  }

  /** In step with the offset past every complete line, the log is what one scan gives. */
  lemma SyncedAtTheEnd(decode: Decoder, base: seq<Event>, from: nat, s: State)
    requires Synced(decode, base, from, s) && s.readBytes == from + Consumed(s.file[from..])
    ensures s.store == OneScan(decode, base, from, s)
  {
    var tail := s.file[from..];
    ScanOfTerminatedPart(decode, tail);
    assert s.file[from..s.readBytes] == tail[..Consumed(tail)];
  }

  /**
   * What a poll of a store in step with its file does, whatever the unread bytes are: it is in
   * step again, and has the log of a single scan, exactly when it meets no id already taken in.
   * Ids repeated inside the unread part make no difference.
   */
  lemma PollSyncs(decode: Decoder, base: seq<Event>, from: nat, s: State)
    requires Synced(decode, base, from, s)
    ensures PollOnce(decode, s).readBytes == from + Consumed(s.file[from..])
    ensures PollOnce(decode, s).store == OneScan(decode, base, from, s) <==> MeetsNew(decode, s)
    ensures Synced(decode, base, from, PollOnce(decode, s)) <==> MeetsNew(decode, s)
  {
    var unread, es := Unread(s), Scan(decode, Unread(s)).events;
    var s' := PollOnce(decode, s);
    OneScanSplits(decode, base, from, s);
    FreshExactly(s.store, es);
    SameTail(s.store, Fresh(s.store, es), es);
    if MeetsNew(decode, s) {
      ScanOfTerminatedPart(decode, unread);
      AdvanceSyncs(decode, base, from, s, s', unread[..Consumed(unread)]);
    }
    if Synced(decode, base, from, s') { SyncedAtTheEnd(decode, base, from, s'); }
  }

  // ----- runs ---------------------------------------------------------------------

  lemma GrowKeeps(decode: Decoder, base: seq<Event>, from: nat, s: State, chunk: seq<Byte>)
    requires Synced(decode, base, from, s)
    ensures Synced(decode, base, from, Grow(s, chunk))
  {
    assert (s.file + chunk)[from..s.readBytes] == s.file[from..s.readBytes];
  }

  /** What an append does, as one change of the state. */
  lemma AppendIs(encode: Encoder, s: State, batch: seq<Event>)
    ensures var bytes := BatchBytes(encode, batch);
            AppendBatch(encode, s, batch) ==
              if |batch| == 0 then Grow(s, bytes) else State(s.file + bytes, s.store + batch, s.readBytes + |bytes|)
  {
    CountedIsWritten(encode, batch);
    if |batch| == 0 { assert s.store + batch == s.store; }
  }

  /** Bytes that read back as a batch, written with nothing unread and taken in, or not taken in at all. */
  lemma AppendedSyncs(decode: Decoder, base: seq<Event>, from: nat, s: State, s': State,
                      batch: seq<Event>, bytes: seq<Byte>)
    requires Synced(decode, base, from, s) && s.readBytes == |s.file|
    requires s' == Grow(s, bytes)
          || (Terminated(bytes) && Scan(decode, bytes).events == batch
              && s' == State(s.file + bytes, s.store + batch, s.readBytes + |bytes|))
    ensures Synced(decode, base, from, s')
  {
    if s' == Grow(s, bytes) {
      GrowKeeps(decode, base, from, s, bytes);
    } else {
      AdvanceSyncs(decode, base, from, s, s', bytes);
    }
  }

  /** With nothing unread, an append in one step moves the offset exactly past its own bytes. */
  lemma QuietAppendSyncs(encode: Encoder, decode: Decoder, base: seq<Event>, from: nat, s: State, batch: seq<Event>)
    requires Codec(encode, decode) && AllEncodable(batch)
    requires Synced(decode, base, from, s) && s.readBytes == |s.file|
    ensures Synced(decode, base, from, AppendBatch(encode, s, batch))
  {
    WrittenScans(encode, decode, batch);
    AppendIs(encode, s, batch);
    AppendedSyncs(decode, base, from, s, AppendBatch(encode, s, batch), batch, BatchBytes(encode, batch));
  }

  /** An append of this process: what it writes can be read back, and it has read the whole file. */
  ghost predicate QuietAppend(encode: Encoder, decode: Decoder, s: State, act: Act) {
    act.Append? ==> Codec(encode, decode) && AllEncodable(act.batch) && s.readBytes == |s.file|
  }

  ghost predicate QuietAppends(encode: Encoder, decode: Decoder, s: State, acts: seq<Act>) {
    forall k :: 0 <= k < |acts| ==> QuietAppend(encode, decode, Run(encode, decode, s, acts[..k]), acts[k])
  }

  /** No poll of the run meets an id already taken in. */
  ghost predicate PollsMeetNew(encode: Encoder, decode: Decoder, s: State, acts: seq<Act>) {
    forall k :: 0 <= k < |acts| && acts[k].Poll? ==> MeetsNew(decode, Run(encode, decode, s, acts[..k]))
  }

  lemma FewerActs(encode: Encoder, decode: Decoder, s: State, acts: seq<Act>, n: nat)
    requires n <= |acts|
    ensures QuietAppends(encode, decode, s, acts) ==> QuietAppends(encode, decode, s, acts[..n])
    ensures PollsMeetNew(encode, decode, s, acts) ==> PollsMeetNew(encode, decode, s, acts[..n])
  {
    forall k | 0 <= k < n ensures acts[..n][..k] == acts[..k] && acts[..n][k] == acts[k] { }
  }

  lemma ActSyncs(encode: Encoder, decode: Decoder, base: seq<Event>, from: nat, s: State, act: Act)
    requires Synced(decode, base, from, s) && QuietAppend(encode, decode, s, act)
    ensures Synced(decode, base, from, Perform(encode, decode, s, act)) <==> (act.Poll? ==> MeetsNew(decode, s))
  {
    match act {
      case Foreign(chunk) => GrowKeeps(decode, base, from, s, chunk);
      case Poll => PollSyncs(decode, base, from, s);
      case Append(batch) => QuietAppendSyncs(encode, decode, base, from, s, batch);
    }
  }

  /** Foreign writes in any cut, polls that meet new ids and quiet appends keep log and offset in step. */
  lemma {:induction false} RunSyncs(encode: Encoder, decode: Decoder, base: seq<Event>, from: nat, s: State,
                                    acts: seq<Act>)
    requires Synced(decode, base, from, s)
    requires QuietAppends(encode, decode, s, acts) && PollsMeetNew(encode, decode, s, acts)
    ensures Synced(decode, base, from, Run(encode, decode, s, acts))
  {
    if |acts| > 0 {
      var n := |acts| - 1;
      FewerActs(encode, decode, s, acts, n);
      RunSyncs(encode, decode, base, from, s, acts[..n]);
      assert QuietAppend(encode, decode, Run(encode, decode, s, acts[..n]), acts[n]);
      ActSyncs(encode, decode, base, from, Run(encode, decode, s, acts[..n]), acts[n]);
    }
  }

  ghost predicate InStepThroughout(encode: Encoder, decode: Decoder, base: seq<Event>, from: nat, s: State,
                                   acts: seq<Act>) {
    forall m :: 0 <= m <= |acts| ==> Synced(decode, base, from, Run(encode, decode, s, acts[..m]))
  }

  lemma NewIdsStayInStep(encode: Encoder, decode: Decoder, base: seq<Event>, from: nat, s: State, acts: seq<Act>)
    requires Synced(decode, base, from, s)
    requires QuietAppends(encode, decode, s, acts) && PollsMeetNew(encode, decode, s, acts)
    ensures InStepThroughout(encode, decode, base, from, s, acts)
  {
    forall m | 0 <= m <= |acts| ensures Synced(decode, base, from, Run(encode, decode, s, acts[..m])) {
      FewerActs(encode, decode, s, acts, m);
      RunSyncs(encode, decode, base, from, s, acts[..m]);
    }
  }

  lemma InStepMeetsNew(encode: Encoder, decode: Decoder, base: seq<Event>, from: nat, s: State, acts: seq<Act>, k: nat)
    requires QuietAppends(encode, decode, s, acts) && InStepThroughout(encode, decode, base, from, s, acts)
    requires k < |acts| && acts[k].Poll?
    ensures MeetsNew(decode, Run(encode, decode, s, acts[..k]))
  {
    var t := Run(encode, decode, s, acts[..k]);
    assert acts[..k + 1][..k] == acts[..k];
    assert Run(encode, decode, s, acts[..k + 1]) == PollOnce(decode, t);
    assert Synced(decode, base, from, t);
    PollSyncs(decode, base, from, t);
  }

  /**
   * A repeated id is dropped between polls but kept inside one.  So over any run of foreign
   * writes, polls and quiet appends the store stays in step throughout exactly when no poll
   * meets an id already taken in.
   */
  lemma RepeatsDependOnPolls(encode: Encoder, decode: Decoder, base: seq<Event>, from: nat, s: State, acts: seq<Act>)
    requires Synced(decode, base, from, s) && QuietAppends(encode, decode, s, acts)
    ensures InStepThroughout(encode, decode, base, from, s, acts) <==> PollsMeetNew(encode, decode, s, acts)
  {
    if PollsMeetNew(encode, decode, s, acts) { NewIdsStayInStep(encode, decode, base, from, s, acts); }
    if InStepThroughout(encode, decode, base, from, s, acts) {
      forall k | 0 <= k < |acts| && acts[k].Poll? ensures MeetsNew(decode, Run(encode, decode, s, acts[..k])) {
        InStepMeetsNew(encode, decode, base, from, s, acts, k);
      }
    }
  }

  lemma {:induction false} FileGrows(encode: Encoder, decode: Decoder, s: State, acts: seq<Act>)
    ensures s.file <= Run(encode, decode, s, acts).file
    ensures s.store <= Run(encode, decode, s, acts).store
  {
    if |acts| > 0 { FileGrows(encode, decode, s, acts[..|acts| - 1]); }
  }

  lemma OpenSyncs(decode: Decoder, raw: seq<Byte>)
    ensures var s := Open(decode, raw); Synced(decode, s.store, |s.file|, s)
  {
    var s := Open(decode, raw);
    assert s.file[|s.file|..s.readBytes] == [];
    assert s.store + [] == s.store;
  }

  /** What was recovered: the complete lines' events, and that of a last line without its newline. */
  lemma OpenHolds(decode: Decoder, raw: seq<Byte>)
    ensures var s := Open(decode, raw);
            var d := decode(s.file[Consumed(s.file)..]);
            && (Terminated(s.file) ==> s.store == Scan(decode, s.file).events)
            && (!Terminated(s.file) ==> d.Some? && s.store == Scan(decode, s.file).events + [d.value])
  {
    RecoverTwice(decode, raw);
    var s := Open(decode, raw);
    assert Recover(decode, s.file).events == s.store && Recover(decode, s.file).truncatedBytes == 0;
  }

  /** What was taken in since the file was opened, read from the beginning of the file. */
  lemma SyncedFromStart(decode: Decoder, cold: seq<Byte>, t: State)
    requires Terminated(cold) && cold <= t.file
    requires Synced(decode, Scan(decode, cold).events, |cold|, t)
    ensures Terminated(t.file[..t.readBytes]) && t.store == Scan(decode, t.file[..t.readBytes]).events
  {
    assert t.file[..t.readBytes] == cold + t.file[|cold|..t.readBytes];
    ScanAfterTerminated(decode, cold, t.file[|cold|..t.readBytes]);
  }

  /**
   * The first line written behind an unterminated one is nothing on its own and leaves that one
   * decoding to what it was, as a lone newline does.
   */
  predicate Completes(decode: Decoder, rest: Line, more: seq<Byte>) {
    && |Lines(more)| > 0 && decode(Lines(more)[0]).None?
    && decode(rest + Lines(more)[0]) == decode(rest)
  }

  lemma SameEnds(a: seq<Event>, x: seq<Event>, y: seq<Event>, b: seq<Event>)
    ensures a + (x + b) == a + (y + b) <==> x == y
  {
    SameTail(a, x + b, y + b);
    if x + b == y + b {
      assert |x| == |y|;
      assert x == (x + b)[..|x|] && y == (y + b)[..|y|];
    }
  }

  /** What follows a last line without its newline, read together with it. */
  lemma ScanTogether(decode: Decoder, kept: seq<Byte>, more: seq<Byte>)
    ensures var rest, ls := kept[Consumed(kept)..], Lines(more);
            Scan(decode, kept + more).events == Scan(decode, kept).events +
              if |ls| == 0 then [] else One(decode(rest + ls[0])) + Decoded(decode, ls[1..])
  {
    var rest, ls := kept[Consumed(kept)..], Lines(more);
    LinesAreTheSplit(kept);
    LinesConcat(kept, more);
    RestLines(rest, more);
    DecodedConcat(decode, Lines(kept), Lines(rest + more));
    if |ls| > 0 { HeadDecoded(decode, rest + ls[0], ls[1..]); }
  }

  /** Read apart and read together. */
  lemma ApartOrTogether(decode: Decoder, kept: seq<Byte>, more: seq<Byte>)
    requires decode(kept[Consumed(kept)..]).Some?
    ensures var rest := kept[Consumed(kept)..];
            var apart := Scan(decode, kept).events + [decode(rest).value] + Scan(decode, more).events;
            apart == Scan(decode, kept + more).events <==> Completes(decode, rest, more)
  {
    var rest, es, ls := kept[Consumed(kept)..], Scan(decode, kept).events, Lines(more);
    ScanTogether(decode, kept, more);
    if |ls| > 0 {
      assert ls == [ls[0]] + ls[1..];
      HeadDecoded(decode, ls[0], ls[1..]);
      OwnOrGlued(es, decode(rest).value, decode(ls[0]), decode(rest + ls[0]), Decoded(decode, ls[1..]));
    }
  }

  function One(d: Option<Event>): seq<Event> {
    if d.Some? then [d.value] else []
  }

  lemma HeadDecoded(decode: Decoder, l: Line, ls: seq<Line>)
    ensures Decoded(decode, [l] + ls) == One(decode(l)) + Decoded(decode, ls)
  {
    DecodedConcat(decode, [l], ls);
    DecodedOne(decode, l);
  }

  lemma OwnOrGlued(es: seq<Event>, e: Event, own: Option<Event>, glued: Option<Event>, tail: seq<Event>)
    ensures es + [e] + (One(own) + tail) == es + (One(glued) + tail) <==> own.None? && glued == Some(e)
  {
    Associates([e], One(own), tail);
    Associates(es, [e], One(own) + tail);
    SameEnds(es, [e] + One(own), One(glued), tail);
    if own.None? { assert [e] + One(own) == [e]; } else { assert |[e] + One(own)| == 2; }
  }

  /** Reading on from what was kept gives a single scan of the whole file exactly when no line is split there. */
  lemma FromKept(decode: Decoder, raw: seq<Byte>, more: seq<Byte>)
    ensures var s := Open(decode, raw);
            var rest := s.file[Consumed(s.file)..];
            (s.store + Scan(decode, more).events == Scan(decode, s.file + more).events <==>
               Terminated(s.file) || Completes(decode, rest, more))
  {
    var s := Open(decode, raw);
    OpenHolds(decode, raw);
    if Terminated(s.file) {
      ScanAfterTerminated(decode, s.file, more);
    } else {
      ApartOrTogether(decode, s.file, more);
    }
  }

  lemma GrownFromKept(decode: Decoder, raw: seq<Byte>, file: seq<Byte>)
    requires Open(decode, raw).file <= file
    ensures var s := Open(decode, raw);
            (s.store + Scan(decode, file[|s.file|..]).events == Scan(decode, file).events <==>
               Terminated(s.file) || Completes(decode, s.file[Consumed(s.file)..], file[|s.file|..]))
  {
    var kept := Open(decode, raw).file;
    assert file == kept + file[|kept|..];
    FromKept(decode, raw, file[|kept|..]);
  }

  /**
   * Tailing.  From any file, after any run of foreign writes cut anywhere, polls that meet new ids,
   * and quiet appends, the offset is a line boundary of what was written since, the log is what
   * was recovered and one scan from there to the offset, and one more poll takes in the rest
   * exactly when it meets new ids too.  Without appends nothing is asked of the codec.
   */
  lemma TailReadsEverything(encode: Encoder, decode: Decoder, raw: seq<Byte>, acts: seq<Act>)
    requires QuietAppends(encode, decode, Open(decode, raw), acts)
    requires PollsMeetNew(encode, decode, Open(decode, raw), acts)
    ensures var s := Open(decode, raw);
            var t := Run(encode, decode, s, acts);
            && |s.file| <= t.readBytes <= |t.file| && Terminated(t.file[|s.file|..t.readBytes])
            && t.store == s.store + Scan(decode, t.file[|s.file|..t.readBytes]).events
            && PollOnce(decode, t).readBytes == |s.file| + Consumed(t.file[|s.file|..])
            && (PollOnce(decode, t).store == s.store + Scan(decode, t.file[|s.file|..]).events <==> MeetsNew(decode, t))
  {
    var s := Open(decode, raw);
    var t := Run(encode, decode, s, acts);
    OpenSyncs(decode, raw);
    RunSyncs(encode, decode, s.store, |s.file|, s, acts);
    PollSyncs(decode, s.store, |s.file|, t);
  }

  /** From a file that ends in a newline, the log is one scan of the whole file up to the offset. */
  lemma TailFromBoundary(encode: Encoder, decode: Decoder, raw: seq<Byte>, acts: seq<Act>)
    requires Terminated(Open(decode, raw).file)
    requires QuietAppends(encode, decode, Open(decode, raw), acts)
    requires PollsMeetNew(encode, decode, Open(decode, raw), acts)
    ensures var t := Run(encode, decode, Open(decode, raw), acts);
            && t.readBytes <= |t.file| && Terminated(t.file[..t.readBytes])
            && t.store == Scan(decode, t.file[..t.readBytes]).events
  {
    var s := Open(decode, raw);
    OpenSyncs(decode, raw);
    OpenHolds(decode, raw);
    FileGrows(encode, decode, s, acts);
    RunSyncs(encode, decode, s.store, |s.file|, s, acts);
    SyncedFromStart(decode, s.file, Run(encode, decode, s, acts));
  }

  /**
   * And that is what a single scan of the whole file gives exactly when recovery kept no line
   * without its newline, or the next line written merely completes it.
   */
  lemma TailIsOneScan(encode: Encoder, decode: Decoder, raw: seq<Byte>, acts: seq<Act>)
    requires QuietAppends(encode, decode, Open(decode, raw), acts)
    requires PollsMeetNew(encode, decode, Open(decode, raw), acts)
    requires MeetsNew(decode, Run(encode, decode, Open(decode, raw), acts))
    ensures var s := Open(decode, raw);
            var t := Run(encode, decode, s, acts);
            && s.file <= t.file
            && (PollOnce(decode, t).store == Scan(decode, t.file).events <==>
                  Terminated(s.file) || Completes(decode, s.file[Consumed(s.file)..], t.file[|s.file|..]))
  {
    FileGrows(encode, decode, Open(decode, raw), acts);
    TailReadsEverything(encode, decode, raw, acts);
    GrownFromKept(decode, raw, Run(encode, decode, Open(decode, raw), acts).file);
  }

  // ----- runs that drop a repeat --------------------------------------------------

  lemma RunMore(encode: Encoder, decode: Decoder, s: State, acts: seq<Act>, act: Act)
    ensures Run(encode, decode, s, acts + [act]) == Perform(encode, decode, Run(encode, decode, s, acts), act)
  {
    assert (acts + [act])[..|acts|] == acts;
  }

  /** Other processes write the lines of `es`, and a poll follows. */
  lemma ForeignThenPoll(encode: Encoder, decode: Decoder, s: State, es: seq<Event>)
    requires Codec(encode, decode) && AllEncodable(es) && s.readBytes == |s.file|
    ensures var bytes := BatchBytes(encode, es);
            Run(encode, decode, s, [Foreign(bytes), Poll]) ==
              State(s.file + bytes, s.store + Fresh(s.store, es), |s.file + bytes|)
  {
    var bytes := BatchBytes(encode, es);
    assert [] + [Foreign(bytes)] == [Foreign(bytes)] && [Foreign(bytes)] + [Poll] == [Foreign(bytes), Poll];
    RunMore(encode, decode, s, [], Foreign(bytes));
    RunMore(encode, decode, s, [Foreign(bytes)], Poll);
    WrittenScans(encode, decode, es);
    assert Unread(Grow(s, bytes)) == bytes;
  }

  /** One scan after bytes were added to a file read to its end. */
  lemma GrownScan(decode: Decoder, s: State, bytes: seq<Byte>, t: State)
    requires t.file == s.file + bytes
    ensures OneScan(decode, s.store, |s.file|, t) == s.store + Scan(decode, bytes).events
  {
    assert t.file[|s.file|..] == bytes;
  }

  /** An event whose id the log holds already is dropped, and the log is no longer what one scan gives. */
  lemma RepeatIsDropped(encode: Encoder, decode: Decoder, raw: seq<Byte>, e: Event)
    requires Codec(encode, decode) && Encodable(e) && !NewTo(Open(decode, raw).store)(e)
    ensures var s := Open(decode, raw);
            var t := Run(encode, decode, s, [Foreign(BatchBytes(encode, [e])), Poll]);
            && t.store == s.store && |s.file| <= t.readBytes == |t.file|
            && OneScan(decode, s.store, |s.file|, t) == s.store + [e]
  {
    var s, bytes := Open(decode, raw), BatchBytes(encode, [e]);
    ForeignThenPoll(encode, decode, s, [e]);
    WrittenScans(encode, decode, [e]);
    SelectNone([e], NewTo(s.store));
    assert s.store + [] == s.store;
    GrownScan(decode, s, bytes, Run(encode, decode, s, [Foreign(bytes), Poll]));
  }

  /** The same bytes twice: polled in between, the second is dropped; polled once, both are kept. */
  lemma RepeatIsKept(encode: Encoder, decode: Decoder, raw: seq<Byte>, e: Event)
    requires Codec(encode, decode) && Encodable(e) && NewTo(Open(decode, raw).store)(e)
    ensures var s, bytes := Open(decode, raw), BatchBytes(encode, [e]);
            var often := Run(encode, decode, Run(encode, decode, s, [Foreign(bytes), Poll]), [Foreign(bytes), Poll]);
            var once := Run(encode, decode, s, [Foreign(BatchBytes(encode, [e, e])), Poll]);
            && often.file == once.file == s.file + bytes + bytes
            && often.store == s.store + [e] && once.store == s.store + [e, e]
  {
    var s, bytes := Open(decode, raw), BatchBytes(encode, [e]);
    var t := Run(encode, decode, s, [Foreign(bytes), Poll]);
    ForeignThenPoll(encode, decode, s, [e]);
    ForeignThenPoll(encode, decode, s, [e, e]);
    ForeignThenPoll(encode, decode, t, [e]);
    TwoLines(encode, e);
    Associates(s.file, bytes, bytes);
    FreshOnce(s.store, e);
  }

  lemma FreshOnce(known: seq<Event>, e: Event)
    requires NewTo(known)(e)
    ensures Fresh(known, [e]) == [e] && Fresh(known, [e, e]) == [e, e]
    ensures known + [e] + Fresh(known + [e], [e]) == known + [e]
  {
    SelectAll([e], NewTo(known));
    SelectAll([e, e], NewTo(known));
    assert (known + [e])[|known|] == e;
    SelectNone([e], NewTo(known + [e]));
  }

  lemma TwoLines(encode: Encoder, e: Event)
    ensures BatchBytes(encode, [e, e]) == BatchBytes(encode, [e]) + BatchBytes(encode, [e])
  {
    var one, two := Encoded(encode, [e]), Encoded(encode, [e, e]);
    assert two == one + one;
    PayloadIs(one);
    PayloadIs(two);
    UnlinesConcat(one, one);
  }

  // ----- an append ahead of unread bytes ------------------------------------------

  /** Newlines, and so complete lines, add up. */
  lemma LinesAdd(a: seq<Byte>, b: seq<Byte>)
    ensures |Lines(a + b)| == |Lines(a)| + |Lines(b)|
    decreases |b|
  {
    if |b| == 0 {
      assert a + b == a;
    } else {
      LinesAdd(a, b[..|b| - 1]);
      assert (a + b)[..|a + b| - 1] == a + b[..|b| - 1];
    }
  }

  lemma {:induction false} FewerEventsThanLines(decode: Decoder, ls: seq<Line>)
    ensures |Decoded(decode, ls)| <= |ls|
  {
    if |ls| > 0 { FewerEventsThanLines(decode, ls[..|ls| - 1]); }
  }

  lemma {:induction false} NoNewlineNoLine(b: seq<Byte>)
    requires NEWLINE !in b
    ensures Lines(b) == []
  {
    if |b| > 0 { NoNewlineNoLine(b[..|b| - 1]); }
  }

  /** A batch's bytes: as many lines as events, the last byte a newline. */
  lemma BatchLines(encode: Encoder, decode: Decoder, batch: seq<Event>)
    requires Codec(encode, decode) && AllEncodable(batch) && |batch| > 0
    ensures var w := BatchBytes(encode, batch);
            |Lines(w)| == |batch| && |w| > 0 && w[|w| - 1] == NEWLINE
  {
    var ls := Encoded(encode, batch);
    PayloadIs(ls);
    SplitIsUnique(ls, []);
    assert Unlines(ls) + [] == BatchBytes(encode, batch);
  }

  /** Cut short, it holds fewer complete lines than the batch has events. */
  lemma CutBatchIsShort(encode: Encoder, decode: Decoder, batch: seq<Event>, k: nat)
    requires Codec(encode, decode) && AllEncodable(batch) && |batch| > 0 && k < |BatchBytes(encode, batch)|
    ensures |Lines(BatchBytes(encode, batch)[..k])| < |batch|
  {
    BatchLines(encode, decode, batch);
    CutIsShort(BatchBytes(encode, batch), k);
  }

  lemma CutIsShort(w: seq<Byte>, k: nat)
    requires k < |w| && w[|w| - 1] == NEWLINE
    ensures |Lines(w[..k])| < |Lines(w)|
  {
    var rest := w[k..];
    assert w == w[..k] + rest && rest[|rest| - 1] == NEWLINE;
    LinesAdd(w[..k], rest);
  }

  /** Where ids are distinct no event is in both parts. */
  lemma NotShared(u: seq<Event>, batch: seq<Event>, e: Event)
    requires DistinctIds(u + batch) && e in u
    ensures e !in batch
  {
    var i :| 0 <= i < |u| && u[i] == e;
    forall j | 0 <= j < |batch| ensures batch[j] != e {
      assert (u + batch)[i] == e && (u + batch)[|u| + j] == batch[j];
    }
  }

  lemma TakeOver(u: seq<Byte>, w: seq<Byte>, n: nat)
    requires n <= |u + w|
    ensures n <= |u| ==> (u + w)[..n] == u[..n] && u == u[..n] + u[n..]
    ensures n > |u| ==> (u + w)[..n] == u + w[..n - |u|]
  {
  }

  /** The bytes an append's count covers hold the batch only if they are the batch's own. */
  lemma CoveredIsOwn(encode: Encoder, decode: Decoder, u: seq<Byte>, batch: seq<Event>)
    requires Codec(encode, decode) && AllEncodable(batch) && |batch| > 0 && u != []
    requires DistinctIds(Scan(decode, u).events + batch)
    ensures var w := BatchBytes(encode, batch);
            Scan(decode, (u + w)[..|w|]).events != batch
  {
    var w := BatchBytes(encode, batch);
    TakeOver(u, w, |w|);
    if |w| <= |u| {
      ScanGrows(decode, u[..|w|], u[|w|..]);
      if Scan(decode, u[..|w|]).events == batch { NotShared(Scan(decode, u).events, batch, batch[0]); }
    } else {
      CoveredAll(encode, decode, u, batch, |w| - |u|);
    }
  }

  /** All unread bytes and the first `k` of the batch's: an unread event, or too few lines. */
  lemma CoveredAll(encode: Encoder, decode: Decoder, u: seq<Byte>, batch: seq<Event>, k: nat)
    requires Codec(encode, decode) && AllEncodable(batch) && |batch| > 0 && k < |BatchBytes(encode, batch)|
    requires DistinctIds(Scan(decode, u).events + batch)
    ensures Scan(decode, u + BatchBytes(encode, batch)[..k]).events != batch
  {
    var cut, rest := BatchBytes(encode, batch)[..k], u[Consumed(u)..];
    var es, more := Scan(decode, u).events, Decoded(decode, Lines(rest + cut));
    LinesConcat(u, cut);
    DecodedConcat(decode, Lines(u), Lines(rest + cut));
    if es + more == batch {
      if |es| > 0 {
        NotShared(es, batch, es[0]);
      }
      LinesAreTheSplit(u);
      NoNewlineNoLine(rest);
      LinesAdd(rest, cut);
      FewerEventsThanLines(decode, Lines(rest + cut));
      CutBatchIsShort(encode, decode, batch, k);
    }
  }

  lemma ScanGrows(decode: Decoder, a: seq<Byte>, chunk: seq<Byte>)
    ensures Scan(decode, a).events <= Scan(decode, a + chunk).events
  {
    LinesConcat(a, chunk);
    DecodedConcat(decode, Lines(a), Lines(a[Consumed(a)..] + chunk));
  }

  /** A synced append has moved the offset over lines that hold exactly the batch. */
  lemma SyncedMovedOver(encode: Encoder, decode: Decoder, base: seq<Event>, from: nat, s: State, batch: seq<Event>)
    requires Synced(decode, base, from, s) && |batch| > 0
    requires Synced(decode, base, from, AppendBatch(encode, s, batch))
    ensures var w := BatchBytes(encode, batch);
            Scan(decode, (Unread(s) + w)[..|w|]).events == batch
  {
    var w, t := BatchBytes(encode, batch), AppendBatch(encode, s, batch);
    var read, p := s.file[from..s.readBytes], (Unread(s) + w)[..|w|];
    CountedIsWritten(encode, batch);
    assert t.file == s.file[..s.readBytes] + (Unread(s) + w);
    assert t.file[from..t.readBytes] == read + p;
    ScanAfterTerminated(decode, read, p);
    Associates(base, Scan(decode, read).events, Scan(decode, p).events);
    SameTail(s.store, Scan(decode, p).events, batch);
  }

  /**
   * The offset an append leaves is right exactly when nothing was unread: with foreign bytes
   * ahead of its own, whole lines or a line cut mid-write, counting only its own bytes points
   * the next poll elsewhere.
   */
  lemma AppendSyncsExactly(encode: Encoder, decode: Decoder, base: seq<Event>, from: nat, s: State, batch: seq<Event>)
    requires Codec(encode, decode) && AllEncodable(batch) && |batch| > 0
    requires Synced(decode, base, from, s) && DistinctIds(Scan(decode, Unread(s)).events + batch)
    ensures Synced(decode, base, from, AppendBatch(encode, s, batch)) <==> Unread(s) == []
  {
    if Synced(decode, base, from, AppendBatch(encode, s, batch)) && Unread(s) != [] {
      SyncedMovedOver(encode, decode, base, from, s, batch);
      CoveredIsOwn(encode, decode, Unread(s), batch);
      assert false;
    }
    if Unread(s) == [] { QuietAppendSyncs(encode, decode, base, from, s, batch); }
  }

  // ----- a poll around an append --------------------------------------------------

  lemma FreshAll(known: seq<Event>, es: seq<Event>)
    requires DistinctIds(known + es)
    ensures Fresh(known, es) == es
  {
    forall a, b | a in known && b in es ensures a.id != b.id {
      var i :| 0 <= i < |known| && known[i] == a;
      var j :| 0 <= j < |es| && es[j] == b;
      assert (known + es)[i] == a && (known + es)[|known| + j] == b;
    }
    FreshExactly(known, es);
  }

  lemma DistinctParts(a: seq<Event>, b: seq<Event>, c: seq<Event>)
    requires DistinctIds(a + b + c)
    ensures DistinctIds(a + b) && DistinctIds(a + c) && DistinctIds(a + c + b) && DistinctIds(a + (b + c))
  {
    var all := a + b + c;
    forall i, j | 0 <= i < j < |a + b| ensures (a + b)[i].id != (a + b)[j].id {
      assert all[i] == (a + b)[i] && all[j] == (a + b)[j];
    }
    forall i, j | 0 <= i < j < |a + c + b| ensures (a + c + b)[i].id != (a + c + b)[j].id {
      var i' := if i < |a| then i else if i < |a| + |c| then i + |b| else i - |c|;
      var j' := if j < |a| then j else if j < |a| + |c| then j + |b| else j - |c|;
      assert all[i'] == (a + c + b)[i] && all[j'] == (a + c + b)[j];
    }
    forall i, j | 0 <= i < j < |a + c| ensures (a + c)[i].id != (a + c)[j].id {
      assert (a + c + b)[i] == (a + c)[i] && (a + c + b)[j] == (a + c)[j];
    }
    assert a + (b + c) == all;
  }

  /**
   * A poll that has read before an append writes: in both orders of the commits the offset is
   * right exactly when no line was cut at its end, and the log has the parts in commit order.
   */
  lemma PollReadBeforeWrite(encode: Encoder, decode: Decoder, s: State, batch: seq<Event>)
    requires |batch| > 0 && s.readBytes <= |s.file|
    requires DistinctIds(s.store + Scan(decode, Unread(s)).events + batch)
    ensures var es := Scan(decode, Unread(s)).events;
            var first := CommitBatch(encode, PollCommit(WriteBatch(encode, s, batch), PollRead(decode, s)), batch);
            var last := PollCommit(AppendBatch(encode, s, batch), PollRead(decode, s));
            && first.readBytes == last.readBytes == s.readBytes + Consumed(Unread(s)) + |BatchBytes(encode, batch)|
            && (first.readBytes == |first.file| <==> Terminated(Unread(s)))
            && first.store == s.store + es + batch
            && last.store == s.store + batch + es
  {
    var es := Scan(decode, Unread(s)).events;
    CountedIsWritten(encode, batch);
    DistinctParts(s.store, es, batch);
    FreshAll(s.store, es);
    FreshAll(s.store + batch, es);
  }

  /**
   * A poll that reads after an append has written and before it commits, whatever was unread.
   * Whichever commits first, the offset ends a whole batch past the end of the file and as many
   * bytes of later foreign writes are never read.
   */
  lemma PollBetweenWriteAndCommit(encode: Encoder, decode: Decoder, s: State, batch: seq<Event>, later: seq<Byte>)
    requires |batch| > 0 && s.readBytes <= |s.file| && |later| <= |BatchBytes(encode, batch)|
    ensures var written := WriteBatch(encode, s, batch);
            var first := CommitBatch(encode, PollCommit(written, PollRead(decode, written)), batch);
            var last := PollCommit(CommitBatch(encode, written, batch), PollRead(decode, written));
            && first.readBytes == last.readBytes == |written.file| + |BatchBytes(encode, batch)|
            && PollOnce(decode, Grow(first, later)) == Grow(first, later)
            && PollOnce(decode, Grow(last, later)) == Grow(last, later)
  {
    var w, written := BatchBytes(encode, batch), WriteBatch(encode, s, batch);
    CountedIsWritten(encode, batch);
    assert Unread(written) == Unread(s) + w && w[|w| - 1] == NEWLINE;
  }

  /** The first line an append of `batch` writes. */
  function FirstLine(encode: Encoder, batch: seq<Event>): Line {
    if |batch| == 0 then [] else encode(batch[0])
  }

  function Tail(batch: seq<Event>): seq<Event> {
    if |batch| == 0 then [] else batch[1..]
  }

  /** What that line decodes to behind unread bytes that end without a newline, or on its own behind a newline. */
  function Glued(encode: Encoder, decode: Decoder, u: seq<Byte>, batch: seq<Event>): seq<Event> {
    One(decode(u[Consumed(u)..] + FirstLine(encode, batch)))
  }

  /** Behind a newline an append's first line is not glued to anything. */
  lemma NotGlued(encode: Encoder, decode: Decoder, u: seq<Byte>, batch: seq<Event>)
    requires Codec(encode, decode) && AllEncodable(batch) && Terminated(u)
    ensures Glued(encode, decode, u, batch) + Tail(batch) == batch
  {
    assert u[Consumed(u)..] == [];
    assert [] + FirstLine(encode, batch) == FirstLine(encode, batch);
    if |batch| == 0 { EmptyLineIsNoEvent(encode, decode); }
  }

  /**
   * What each order of the two commits makes of the log, whatever was unread: all of the batch but
   * its first event twice, or once and ahead of the foreign lines; and what the batch's first line
   * decodes to behind a line cut mid-write, if it is new.  With no line cut, that is the batch twice
   * or the parts in commit order.
   */
  lemma PollBetweenDoubles(encode: Encoder, decode: Decoder, s: State, batch: seq<Event>)
    requires Codec(encode, decode) && AllEncodable(batch) && s.readBytes <= |s.file|
    requires DistinctIds(s.store + Scan(decode, Unread(s)).events + batch)
    ensures var es, glued := Scan(decode, Unread(s)).events, Glued(encode, decode, Unread(s), batch);
            var written := WriteBatch(encode, s, batch);
            var found := PollRead(decode, written);
            var first := CommitBatch(encode, PollCommit(written, found), batch).store;
            var last := PollCommit(CommitBatch(encode, written, batch), found).store;
            && first == s.store + es + Fresh(s.store, glued) + Tail(batch) + batch
            && last == s.store + batch + es + Fresh(s.store + batch, glued)
            && (Terminated(Unread(s)) ==> first == s.store + es + batch + batch && last == s.store + batch + es)
  {
    var u, es := Unread(s), Scan(decode, Unread(s)).events;
    LateFound(encode, decode, s, batch);
    LateFresh(s.store, es, Glued(encode, decode, u, batch), batch);
    Associates(s.store, es, Fresh(s.store, Glued(encode, decode, u, batch)) + Tail(batch));
    Associates(s.store + es, Fresh(s.store, Glued(encode, decode, u, batch)), Tail(batch));
    Associates(s.store + batch, es, Fresh(s.store + batch, Glued(encode, decode, u, batch)));
    if Terminated(u) {
      NotGlued(encode, decode, u, batch);
      WholeLate(s.store, es, Glued(encode, decode, u, batch), batch);
    }
  }

  /** The lines an append writes, even of no events. */
  lemma WrittenLines(encode: Encoder, decode: Decoder, batch: seq<Event>)
    requires Codec(encode, decode) && AllEncodable(batch)
    ensures Lines(BatchBytes(encode, batch)) == [FirstLine(encode, batch)] + Encoded(encode, Tail(batch))
  {
    var ls := [FirstLine(encode, batch)] + Encoded(encode, Tail(batch));
    PayloadIs(Encoded(encode, batch));
    assert ls == if |batch| == 0 then [[]] else Encoded(encode, batch);
    SplitIsUnique(ls, []);
    assert Unlines(ls) + [] == Unlines(ls);
  }

  lemma ScanWritten(encode: Encoder, decode: Decoder, u: seq<Byte>, batch: seq<Event>)
    requires Codec(encode, decode) && AllEncodable(batch)
    ensures Scan(decode, u + BatchBytes(encode, batch)).events ==
              Scan(decode, u).events + (Glued(encode, decode, u, batch) + Tail(batch))
  {
    var ls := Lines(BatchBytes(encode, batch));
    WrittenLines(encode, decode, batch);
    ScanTogether(decode, u, BatchBytes(encode, batch));
    assert ls[0] == FirstLine(encode, batch) && ls[1..] == Encoded(encode, Tail(batch));
    DecodedEncoded(encode, decode, Tail(batch));
  }

  lemma LateFound(encode: Encoder, decode: Decoder, s: State, batch: seq<Event>)
    requires Codec(encode, decode) && AllEncodable(batch) && s.readBytes <= |s.file|
    ensures var u := Unread(s);
            PollRead(decode, WriteBatch(encode, s, batch)).events ==
              Scan(decode, u).events + (Glued(encode, decode, u, batch) + Tail(batch))
  {
    assert Unread(WriteBatch(encode, s, batch)) == Unread(s) + BatchBytes(encode, batch);
    ScanWritten(encode, decode, Unread(s), batch);
  }

  /** What is new among the lines found, when the batch has yet to be taken in and when it has been. */
  lemma LateFresh(store: seq<Event>, es: seq<Event>, glued: seq<Event>, batch: seq<Event>)
    requires DistinctIds(store + es + batch)
    ensures Fresh(store, es + (glued + Tail(batch))) == es + (Fresh(store, glued) + Tail(batch))
    ensures Fresh(store + batch, es + (glued + Tail(batch))) == es + Fresh(store + batch, glued)
  {
    DistinctParts(store, es, batch);
    FreshParts(store, es, glued, Tail(batch));
    FreshParts(store + batch, es, glued, Tail(batch));
    FreshAll(store, es);
    FreshAll(store + batch, es);
    FreshAll(store, batch);
    FreshTail(store, batch);
    SelectNone(Tail(batch), NewTo(store + batch));
    assert Fresh(store + batch, glued) + [] == Fresh(store + batch, glued);
  }

  lemma FreshParts(known: seq<Event>, a: seq<Event>, b: seq<Event>, c: seq<Event>)
    ensures Fresh(known, a + (b + c)) == Fresh(known, a) + (Fresh(known, b) + Fresh(known, c))
  {
    SelectConcat(a, b + c, NewTo(known));
    SelectConcat(b, c, NewTo(known));
  }

  lemma FreshTail(store: seq<Event>, batch: seq<Event>)
    requires Fresh(store, batch) == batch
    ensures Fresh(store, Tail(batch)) == Tail(batch)
  {
    FreshExactly(store, batch);
    FreshExactly(store, Tail(batch));
  }

  lemma WholeLate(store: seq<Event>, es: seq<Event>, glued: seq<Event>, batch: seq<Event>)
    requires DistinctIds(store + es + batch) && glued + Tail(batch) == batch
    ensures Fresh(store, glued) == glued && Fresh(store + batch, glued) == []
    ensures store + es + glued + Tail(batch) + batch == store + es + batch + batch
  {
    DistinctParts(store, es, batch);
    FreshAll(store, batch);
    FreshExactly(store, batch);
    FreshExactly(store, glued);
    forall e | e in glued ensures !NewTo(store + batch)(e) {
      assert e in glued + Tail(batch);
      assert e in store + batch;
    }
    SelectNone(glued, NewTo(store + batch));
    Associates(store + es, glued, Tail(batch));
  }

  // ----- the store object ---------------------------------------------------------

  lemma WholeFileKept(decode: Decoder, raw: seq<Byte>)
    ensures Recover(decode, raw).truncatedBytes == 0 ==> raw[..Recover(decode, raw).validBytes] == raw
  {
  }

  /** `published` is what the store has handed to its subscribers' windows. */
  class Store {
    const writer: Writer
    var store: seq<Event>
    var readBytes: nat
    var published: seq<Event>

    ghost function View(): State reads this, writer {
      State(writer.file, store, readBytes)
    }

    /** Recover the file, keep its events, cut a torn tail. */
    constructor (decode: Decoder, raw: seq<Byte>)
      ensures View() == Open(decode, raw) && fresh(writer) && published == []
    {
      var recovered := ScanAndRecover(decode, raw);
      store := recovered.events;
      readBytes, published := recovered.validBytes, [];
      writer := new Writer(raw);
      new;
      WholeFileKept(decode, raw);
      if recovered.truncatedBytes > 0 {
        writer.Truncate(recovered.validBytes);
      }
    }

    /** One wake-up of the poll fiber: what joins the log is published, in order. */
    method PollFile(decode: Decoder)
      modifies this
      ensures View() == PollOnce(decode, old(View()))
      ensures store == old(store) + store[|old(store)|..] && published == old(published) + store[|old(store)|..]
    {
      var known := readBytes;
      var fileSize := |writer.file|;
      if fileSize <= known {
        return;
      }
      var scan := ScanLines(decode, writer.file[known..fileSize]);
      assert writer.file[known..fileSize] == Unread(View());
      if |scan.events| == 0 && scan.consumed == 0 {
        assert Fresh(store, []) == [];
        return;
      }
      var taken := Fresh(store, scan.events);
      store := store + taken;
      Publish(taken);
      readBytes := readBytes + scan.consumed;
    }

    /** One envelope after the other. */
    method Publish(envelopes: seq<Event>)
      modifies this`published
      ensures published == old(published) + envelopes
    {
      for i := 0 to |envelopes|
        invariant published == old(published) + envelopes[..i]
      {
        published := published + [envelopes[i]];
      }
    }

    /** The write half of an append of already minted envelopes. */
    method WriteHalf(encode: Encoder, envelopes: seq<Event>)
      modifies writer
      ensures View() == WriteBatch(encode, old(View()), envelopes)
    {
      var lines := seq(|envelopes|, i requires 0 <= i < |envelopes| => encode(envelopes[i]));
      assert lines == Encoded(encode, envelopes);
      writer.AppendLines(lines);
    }

    /** The locked half: take the batch in, publish it, and count its bytes line by line. */
    method CommitHalf(encode: Encoder, envelopes: seq<Event>)
      modifies this
      ensures View() == CommitBatch(encode, old(View()), envelopes)
      ensures published == old(published) + envelopes
    {
      var appendedBytes: nat := 0;
      for i := 0 to |envelopes|
        invariant appendedBytes == CountedBytes(encode, envelopes[..i])
      {
        assert envelopes[..i + 1][..i] == envelopes[..i];
        appendedBytes := appendedBytes + |encode(envelopes[i])| + 1;
      }
      assert envelopes[..|envelopes|] == envelopes;
      store := store + envelopes;
      Publish(envelopes);
      readBytes := readBytes + appendedBytes;
    }
  }
}

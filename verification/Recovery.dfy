/**
 * The byte layer of the file store: the line scanner and cold-start recovery
 * (packages/store-file/src/Recovery.ts) and the append writer (packages/store-file/src/Writer.ts).
 */
module Recovery {
  import opened Wrappers
  import opened Events

  type Line = seq<Byte>
  type Encoder = Event -> Line
  type Decoder = Line -> Option<Event>

  const NEWLINE: Byte := 0x0A

  // ----- what can be written ------------------------------------------------------

  /** One more than the largest number twenty-six letters spell: 32^26. */
  const ID_LIMIT: nat := 0x4_0000_0000_0000_0000_0000_0000_0000_0000

  const WORD_LETTERS := "ABCDEFGHIJKLMNOPQRSTUVWXYZabcdefghijklmnopqrstuvwxyz0123456789_.-"

  const SOURCES := ["canvas", "agent", "system", "voice", "cli", "cloud"]

  predicate IsWord(s: string) {
    s != "" && forall i :: 0 <= i < |s| ==> s[i] in WORD_LETTERS
  }

  /** A word, or two with a colon between them. */
  predicate IsActor(s: string) {
    IsWord(s) || exists k :: 0 <= k < |s| && s[k] == ':' && IsWord(s[..k]) && IsWord(s[k + 1..])
  }

  /** The events the schema accepts: constructing any other envelope fails, so none is ever written. */
  predicate Encodable(e: Event) {
    && e.id < ID_LIMIT && IsActor(e.actor) && e.source in SOURCES
    && (e.causedBy.Some? ==> forall i :: 0 <= i < |e.causedBy.value| ==> e.causedBy.value[i] < ID_LIMIT)
  }

  ghost predicate AllEncodable(batch: seq<Event>) {
    forall i :: 0 <= i < |batch| ==> Encodable(batch[i])
  }

  /**
   * How an event is encoded as JSON text in UTF-8 is not part of this model.  This is what the layer
   * needs of it: section 7 of RFC 8259 escapes control characters and section 3 of RFC 3629 keeps
   * 0x0A out of multi-byte sequences, so an encoded event holds no newline byte, and no proper prefix
   * of a JSON object is a JSON object.  `PrefixCode.MeetsCodec` gives a pair of functions that meets
   * this and `NoGlue`.
   */
  ghost predicate Codec(encode: Encoder, decode: Decoder) {
    && (forall e: Event :: Encodable(e) ==> decode(encode(e)) == Some(e))
    && (forall e: Event :: Encodable(e) ==> NEWLINE !in encode(e))
    && (forall e: Event, k: nat {:trigger encode(e)[..k]} ::
          Encodable(e) && k < |encode(e)| ==> decode(encode(e)[..k]).None?)
  }

  const SAMPLE := Event(0, "", "system", "cli", 0, None, "")

  lemma SampleIsEncodable()
    ensures Encodable(SAMPLE)
  {
    assert IsWord("system");
    assert SOURCES[4] == "cli";
  }

  lemma EncodedNonempty(encode: Encoder, decode: Decoder, e: Event)
    requires Codec(encode, decode) && Encodable(e)
    ensures encode(e) != []
  {
    var other := e.(id := if e.id == 0 then 1 else 0);
    assert Encodable(other);
    assert decode(encode(other)) == Some(other);
    assert encode(other)[..0] == [];
  }

  // ----- lines --------------------------------------------------------------------

  /** The length of the newline-terminated part. */
  function Consumed(b: seq<Byte>): (n: nat)
    ensures n <= |b|
  {
    if |b| == 0 then 0 else if b[|b| - 1] == NEWLINE then |b| else Consumed(b[..|b| - 1])
  }

  /** The complete lines, without their newlines. */
  function Lines(b: seq<Byte>): seq<Line> {
    if |b| == 0 then [] else
      var init := b[..|b| - 1];
      if b[|b| - 1] == NEWLINE then Lines(init) + [init[Consumed(init)..]] else Lines(init)
  }

  function Unlines(ls: seq<Line>): seq<Byte> {
    if |ls| == 0 then [] else Unlines(ls[..|ls| - 1]) + ls[|ls| - 1] + [NEWLINE]
  }

  /** Empty, or ending in a newline. */
  predicate Terminated(b: seq<Byte>) {
    Consumed(b) == |b|
  }

  ghost predicate AreLines(ls: seq<Line>) {
    forall i :: 0 <= i < |ls| ==> NEWLINE !in ls[i]
  }

  lemma UnlinesSnoc(ls: seq<Line>, l: Line)
    ensures Unlines(ls + [l]) == Unlines(ls) + l + [NEWLINE]
  {
    assert (ls + [l])[..|ls|] == ls;
  }

  lemma LineCloses(init: seq<Byte>, ls: seq<Line>, n: nat)
    requires n <= |init| && init[..n] == Unlines(ls)
    ensures Unlines(ls + [init[n..]]) == init + [NEWLINE]
  {
    UnlinesSnoc(ls, init[n..]);
    assert init == init[..n] + init[n..];
  }

  /** The complete lines and the rest of some bytes, cut after `n` bytes. */
  ghost predicate IsSplit(b: seq<Byte>, ls: seq<Line>, n: nat) {
    n <= |b| && b[..n] == Unlines(ls) && AreLines(ls) && NEWLINE !in b[n..]
  }

  lemma NewlineLast(init: seq<Byte>, ls: seq<Line>, n: nat)
    requires IsSplit(init, ls, n)
    ensures IsSplit(init + [NEWLINE], ls + [init[n..]], |init| + 1)
  {
    var b := init + [NEWLINE];
    LineCloses(init, ls, n);
    assert b[..|b|] == b && b[|b|..] == [];
  }

  lemma OtherLast(init: seq<Byte>, ls: seq<Line>, n: nat, last: Byte)
    requires IsSplit(init, ls, n) && last != NEWLINE
    ensures IsSplit(init + [last], ls, n)
  {
    var b := init + [last];
    assert b[..n] == init[..n];
    assert b[n..] == init[n..] + [last];
  }

  lemma {:induction false} SplitOf(b: seq<Byte>)
    ensures IsSplit(b, Lines(b), Consumed(b))
  {
    if |b| > 0 {
      var init, last := b[..|b| - 1], b[|b| - 1];
      SplitOf(init);
      assert b == init + [last];
      if last == NEWLINE {
        NewlineLast(init, Lines(init), Consumed(init));
      } else {
        OtherLast(init, Lines(init), Consumed(init), last);
      }
    }
  }

  /** The complete lines, each with its newline, are the consumed bytes, and what is left has none. */
  lemma LinesAreTheSplit(b: seq<Byte>)
    ensures b[..Consumed(b)] == Unlines(Lines(b)) && AreLines(Lines(b)) && NEWLINE !in b[Consumed(b)..]
  {
    SplitOf(b);
  }

  /** There is only one way to cut bytes into newline-free lines and a newline-free rest. */
  lemma {:induction false} SplitIsUnique(ls: seq<Line>, tail: seq<Byte>)
    requires AreLines(ls) && NEWLINE !in tail
    ensures Lines(Unlines(ls) + tail) == ls && Consumed(Unlines(ls) + tail) == |Unlines(ls)|
    decreases |ls|, |tail|
  {
    var b := Unlines(ls) + tail;
    if |tail| > 0 {
      assert b[..|b| - 1] == Unlines(ls) + tail[..|tail| - 1];
      assert b[|b| - 1] == tail[|tail| - 1] && tail[|tail| - 1] in tail;
      SplitIsUnique(ls, tail[..|tail| - 1]);
    } else if |ls| > 0 {
      var ls', l := ls[..|ls| - 1], ls[|ls| - 1];
      assert b == Unlines(ls') + l + [NEWLINE];
      assert b[..|b| - 1] == Unlines(ls') + l;
      SplitIsUnique(ls', l);
      assert ls == ls' + [l];
    }
  }

  lemma {:induction false} UnlinesConcat(a: seq<Line>, b: seq<Line>)
    ensures Unlines(a + b) == Unlines(a) + Unlines(b)
  {
    if |b| == 0 {
      assert a + b == a;
    } else {
      var init, l := b[..|b| - 1], b[|b| - 1];
      UnlinesConcat(a, init);
      UnlinesSnoc(a + init, l);
      assert a + b == a + init + [l];
      Associates(Unlines(a), Unlines(init), l);
      Associates(Unlines(a), Unlines(init) + l, [NEWLINE]);
    }
  }

  /** Scanning on from the last line boundary sees exactly the lines the earlier scan did not. */
  lemma LinesConcat(a: seq<Byte>, b: seq<Byte>)
    ensures Lines(a + b) == Lines(a) + Lines(a[Consumed(a)..] + b)
    ensures Consumed(a + b) == Consumed(a) + Consumed(a[Consumed(a)..] + b)
  {
    var c := a[Consumed(a)..] + b;
    var rest := c[Consumed(c)..];
    LinesAreTheSplit(a);
    LinesAreTheSplit(c);
    UnlinesConcat(Lines(a), Lines(c));
    Reassemble(a, b, Consumed(a), c, Consumed(c));
    SplitIsUnique(Lines(a) + Lines(c), rest);
  }

  lemma Reassemble(a: seq<Byte>, b: seq<Byte>, n: nat, c: seq<Byte>, m: nat)
    requires n <= |a| && c == a[n..] + b && m <= |c|
    ensures a + b == a[..n] + c[..m] + c[m..]
  {
    assert a + b == a[..n] + c by { assert a == a[..n] + a[n..]; }
    assert c == c[..m] + c[m..];
    assert a[..n] + (c[..m] + c[m..]) == a[..n] + c[..m] + c[m..];
  }

  lemma LinesAfterTerminated(a: seq<Byte>, b: seq<Byte>)
    requires Terminated(a)
    ensures Lines(a + b) == Lines(a) + Lines(b) && Consumed(a + b) == |a| + Consumed(b)
  {
    LinesConcat(a, b);
    assert a[Consumed(a)..] + b == b;
  }

  // ----- scanLines ----------------------------------------------------------------

  datatype ScanResult = ScanResult(events: seq<Event>, skipped: nat, consumed: nat)

  function Decoded(decode: Decoder, ls: seq<Line>): seq<Event> {
    if |ls| == 0 then [] else
      var d := decode(ls[|ls| - 1]);
      Decoded(decode, ls[..|ls| - 1]) + if d.Some? then [d.value] else []
  }

  function Undecodable(decode: Decoder, ls: seq<Line>): nat {
    if |ls| == 0 then 0 else
      Undecodable(decode, ls[..|ls| - 1]) + if decode(ls[|ls| - 1]).Some? then 0 else 1
  }

  function Scan(decode: Decoder, bytes: seq<Byte>): ScanResult {
    ScanResult(Decoded(decode, Lines(bytes)), Undecodable(decode, Lines(bytes)), Consumed(bytes))
  }

  /** The scan one byte further: nothing but a newline changes it. */
  lemma ScanOneMore(decode: Decoder, bytes: seq<Byte>, i: nat, lineStart: nat)
    requires i < |bytes| && lineStart == Consumed(bytes[..i])
    ensures bytes[i] != NEWLINE ==> Scan(decode, bytes[..i + 1]) == Scan(decode, bytes[..i])
    ensures bytes[i] == NEWLINE ==>
              var before, line := Scan(decode, bytes[..i]), bytes[lineStart..i];
              && Scan(decode, bytes[..i + 1]).consumed == i + 1
              && Scan(decode, bytes[..i + 1]).events ==
                 before.events + (if decode(line).Some? then [decode(line).value] else [])
              && Scan(decode, bytes[..i + 1]).skipped == before.skipped + (if decode(line).Some? then 0 else 1)
  {
    assert bytes[..i + 1][..i] == bytes[..i];
    if bytes[i] == NEWLINE {
      var ls := Lines(bytes[..i]);
      assert bytes[..i][lineStart..] == bytes[lineStart..i];
      assert Lines(bytes[..i + 1]) == ls + [bytes[lineStart..i]];
      assert (ls + [bytes[lineStart..i]])[..|ls|] == ls;
    }
  }

  method ScanLines(decode: Decoder, bytes: seq<Byte>) returns (r: ScanResult)
    ensures r == Scan(decode, bytes)
  {
    var events: seq<Event>, skipped: nat, consumed: nat, lineStart: nat := [], 0, 0, 0;
    for i := 0 to |bytes|
      invariant lineStart == consumed <= i
      invariant ScanResult(events, skipped, consumed) == Scan(decode, bytes[..i])
    {
      ScanOneMore(decode, bytes, i, lineStart);
      if bytes[i] == NEWLINE {
        var lineBytes := bytes[lineStart..i];
        var attempt := decode(lineBytes);
        if attempt.Some? { events := events + [attempt.value]; } else { skipped := skipped + 1; }
        consumed := consumed + |lineBytes| + 1;
        lineStart := i + 1;
      }
    }
    assert bytes[..|bytes|] == bytes;
    r := ScanResult(events, skipped, consumed);
  }

  lemma {:induction false} DecodedConcat(decode: Decoder, a: seq<Line>, b: seq<Line>)
    ensures Decoded(decode, a + b) == Decoded(decode, a) + Decoded(decode, b)
    ensures Undecodable(decode, a + b) == Undecodable(decode, a) + Undecodable(decode, b)
  {
    if |b| == 0 {
      assert a + b == a;
    } else {
      DecodedConcat(decode, a, b[..|b| - 1]);
      assert (a + b)[..|a + b| - 1] == a + b[..|b| - 1];
    }
  }

  lemma ScanAfterTerminated(decode: Decoder, a: seq<Byte>, b: seq<Byte>)
    requires Terminated(a)
    ensures Scan(decode, a + b).events == Scan(decode, a).events + Scan(decode, b).events
    ensures Scan(decode, a + b).skipped == Scan(decode, a).skipped + Scan(decode, b).skipped
    ensures Consumed(a + b) == |a| + Consumed(b)
  {
    LinesAfterTerminated(a, b);
    DecodedConcat(decode, Lines(a), Lines(b));
  }

  // ----- scanAndRecover -----------------------------------------------------------

  datatype RecoveryResult = RecoveryResult(events: seq<Event>, skipped: nat, truncatedBytes: nat, validBytes: nat)

  /** The unterminated bytes are kept when they decode and given up when they do not. */
  function Recover(decode: Decoder, raw: seq<Byte>): (r: RecoveryResult)
    ensures r.validBytes + r.truncatedBytes == |raw|
  {
    var scan := Scan(decode, raw);
    var trailing := raw[scan.consumed..];
    if |trailing| == 0 then RecoveryResult(scan.events, scan.skipped, 0, scan.consumed)
    else match decode(trailing)
      case Some(e) => RecoveryResult(scan.events + [e], scan.skipped, 0, |raw|)
      case None => RecoveryResult(scan.events, scan.skipped, |trailing|, scan.consumed)
  }

  method ScanAndRecover(decode: Decoder, raw: seq<Byte>) returns (r: RecoveryResult)
    ensures r == Recover(decode, raw)
  {
    var scan := ScanLines(decode, raw);
    var events, validBytes, truncatedBytes := scan.events, scan.consumed, 0;
    if |raw| > scan.consumed {
      var attempt := decode(raw[scan.consumed..]);
      if attempt.Some? {
        events := events + [attempt.value];
        validBytes := |raw|;
      } else {
        truncatedBytes := |raw| - scan.consumed;
      }
    }
    r := RecoveryResult(events, scan.skipped, truncatedBytes, validBytes);
  }

  /** The terminated part alone scans like the whole. */
  lemma ScanOfTerminatedPart(decode: Decoder, b: seq<Byte>)
    ensures Terminated(b[..Consumed(b)]) && Scan(decode, b[..Consumed(b)]) == Scan(decode, b)
  {
    LinesAreTheSplit(b);
    SplitIsUnique(Lines(b), []);
    assert Unlines(Lines(b)) + [] == b[..Consumed(b)];
  }

  /** Recovering what recovery left finds the same events and nothing more to cut, for any file. */
  lemma RecoverTwice(decode: Decoder, raw: seq<Byte>)
    ensures var r := Recover(decode, raw);
            Recover(decode, raw[..r.validBytes]) == r.(truncatedBytes := 0)
  {
    ScanOfTerminatedPart(decode, raw);
    assert raw[..|raw|] == raw;
  }

  // ----- the writer ---------------------------------------------------------------

  function Encoded(encode: Encoder, batch: seq<Event>): (ls: seq<Line>)
    ensures |ls| == |batch|
  {
    seq(|batch|, i requires 0 <= i < |batch| => encode(batch[i]))
  }

  /** `lines.join("\n")`. */
  function Join(ls: seq<Line>): seq<Byte> {
    if |ls| == 0 then [] else if |ls| == 1 then ls[0] else
      Join(ls[..|ls| - 1]) + [NEWLINE] + ls[|ls| - 1]
  }

  /** The bytes one `appendLines` call adds: a lone newline when there are no lines. */
  function Payload(ls: seq<Line>): seq<Byte> {
    Join(ls) + [NEWLINE]
  }

  lemma {:induction false} PayloadIs(ls: seq<Line>)
    ensures Payload(ls) == Unlines(if |ls| == 0 then [[]] else ls)
  {
    if |ls| == 0 {
      assert Unlines([[]]) == [NEWLINE];
    } else if |ls| == 1 {
      assert Unlines(ls[..0]) == [];
    } else {
      PayloadIs(ls[..|ls| - 1]);
    }
  }

  class Writer {
    var file: seq<Byte>

    constructor (file: seq<Byte>)
      ensures this.file == file
    {
      this.file := file;
    }

    method AppendLines(lines: seq<Line>)
      modifies this
      ensures file == old(file) + Payload(lines)
    {
      file := file + (Join(lines) + [NEWLINE]);
    }

    /** Grows the file with zero bytes when it is shorter, as the file system does. */
    method Truncate(bytes: nat)
      modifies this
      ensures bytes <= |old(file)| ==> file == old(file)[..bytes]
      ensures |file| == bytes
    {
      file := if bytes <= |file| then file[..bytes] else file + seq(bytes - |file|, _ => 0);
    }
  }

  lemma {:induction false} DecodedEncoded(encode: Encoder, decode: Decoder, batch: seq<Event>)
    requires AllEncodable(batch)
    requires Codec(encode, decode)
    ensures Decoded(decode, Encoded(encode, batch)) == batch && Undecodable(decode, Encoded(encode, batch)) == 0
  {
    if |batch| > 0 {
      var init := batch[..|batch| - 1];
      DecodedEncoded(encode, decode, init);
      assert Encoded(encode, batch)[..|batch| - 1] == Encoded(encode, init);
      assert batch == init + [batch[|batch| - 1]];
    }
  }

  /** The bytes a batch adds. */
  function BatchBytes(encode: Encoder, batch: seq<Event>): seq<Byte> {
    Payload(Encoded(encode, batch))
  }

  /** What is written is what is read back; an empty batch is one empty, undecodable line. */
  lemma WrittenScans(encode: Encoder, decode: Decoder, batch: seq<Event>)
    requires AllEncodable(batch)
    requires Codec(encode, decode)
    ensures Terminated(BatchBytes(encode, batch))
    ensures Scan(decode, BatchBytes(encode, batch)).events == batch
    ensures Scan(decode, BatchBytes(encode, batch)).skipped == if |batch| == 0 then 1 else 0
  {
    var ls := if |batch| == 0 then [[]] else Encoded(encode, batch);
    PayloadIs(Encoded(encode, batch));
    SplitIsUnique(ls, []);
    assert Unlines(ls) + [] == BatchBytes(encode, batch);
    DecodedEncoded(encode, decode, batch);
    if |batch| == 0 { EmptyLineIsNoEvent(encode, decode); }
  }

  lemma EmptyLineIsNoEvent(encode: Encoder, decode: Decoder)
    requires Codec(encode, decode)
    ensures decode([]).None? && Decoded(decode, [[]]) == [] && Undecodable(decode, [[]]) == 1
  {
    SampleIsEncodable();
    EncodedNonempty(encode, decode, SAMPLE);
    assert encode(SAMPLE)[..0] == [];
    var one: seq<Line> := [[]];
    assert one[..0] == [];
  }

  // ----- crash consistency --------------------------------------------------------

  /** A whole batch on top of a newline-ended file: its events after the file's, newline-ended again. */
  lemma BatchScans(encode: Encoder, decode: Decoder, file: seq<Byte>, batch: seq<Event>)
    requires AllEncodable(batch)
    requires Codec(encode, decode) && Terminated(file)
    ensures var file' := file + BatchBytes(encode, batch);
            Terminated(file') && Scan(decode, file').events == Scan(decode, file).events + batch
  {
    WrittenScans(encode, decode, batch);
    ScanAfterTerminated(decode, file, BatchBytes(encode, batch));
  }

  /** The file after a run of completed appends. */
  function Written(encode: Encoder, file: seq<Byte>, batches: seq<seq<Event>>): seq<Byte> {
    if |batches| == 0 then file else
      Written(encode, file, batches[..|batches| - 1]) + BatchBytes(encode, batches[|batches| - 1])
  }

  lemma {:induction false} RunOfBatchesScans(encode: Encoder, decode: Decoder, file: seq<Byte>,
                                             batches: seq<seq<Event>>)
    requires forall i :: 0 <= i < |batches| ==> AllEncodable(batches[i])
    requires Codec(encode, decode) && Terminated(file)
    ensures Terminated(Written(encode, file, batches))
    ensures Scan(decode, Written(encode, file, batches)).events == Scan(decode, file).events + Flatten(batches)
  {
    if |batches| > 0 {
      var n := |batches| - 1;
      RunOfBatchesScans(encode, decode, file, batches[..n]);
      BatchScans(encode, decode, Written(encode, file, batches[..n]), batches[n]);
      Associates(Scan(decode, file).events, Flatten(batches[..n]), batches[n]);
    }
  }

  /** How many of a batch's events the first `k` bytes hold in full, the last newline aside. */
  function Survivors(encode: Encoder, batch: seq<Event>, k: nat): (m: nat)
    ensures m <= |batch|
  {
    if |batch| == 0 || |Unlines(Encoded(encode, batch))| <= k + 1 then |batch|
    else Survivors(encode, batch[..|batch| - 1], k)
  }

  /** The first `k` bytes of some lines: whole lines, then part of the next. */
  lemma {:induction false} TornLines(ls: seq<Line>, k: nat) returns (m: nat)
    requires k < |Unlines(ls)|
    ensures m < |ls| && |Unlines(ls[..m])| <= k <= |Unlines(ls[..m])| + |ls[m]|
    ensures Unlines(ls)[..k] == Unlines(ls[..m]) + ls[m][..k - |Unlines(ls[..m])|]
  {
    var n := |ls| - 1;
    var init := Unlines(ls[..n]);
    if k < |init| {
      m := TornLines(ls[..n], k);
      assert ls[..n][..m] == ls[..m];
      assert Unlines(ls)[..k] == init[..k];
    } else {
      m := n;
      assert Unlines(ls) == init + (ls[n] + [NEWLINE]);
      assert Unlines(ls)[..k] == init + (ls[n] + [NEWLINE])[..k - |init|];
      assert (ls[n] + [NEWLINE])[..k - |init|] == ls[n][..k - |init|];
    }
  }

  /** One more event takes its text and a newline. */
  lemma SizeStep(encode: Encoder, batch: seq<Event>, m: nat)
    requires m < |batch|
    ensures |Unlines(Encoded(encode, batch[..m + 1]))| ==
            |Unlines(Encoded(encode, batch[..m]))| + |encode(batch[m])| + 1
  {
    assert Encoded(encode, batch[..m + 1]) == Encoded(encode, batch[..m]) + [encode(batch[m])];
    UnlinesSnoc(Encoded(encode, batch[..m]), encode(batch[m]));
  }

  lemma {:induction false} SizeGrows(encode: Encoder, batch: seq<Event>, m: nat, n: nat)
    requires m < n <= |batch|
    ensures |Unlines(Encoded(encode, batch[..m]))| < |Unlines(Encoded(encode, batch[..n]))|
    decreases n
  {
    SizeStep(encode, batch, n - 1);
    if m < n - 1 { SizeGrows(encode, batch, m, n - 1); }
  }

  lemma {:induction false} SurvivorsAre(encode: Encoder, batch: seq<Event>, k: nat, m: nat)
    requires m < |batch|
    requires |Unlines(Encoded(encode, batch[..m]))| <= k <= |Unlines(Encoded(encode, batch[..m]))| + |encode(batch[m])|
    ensures Survivors(encode, batch, k) ==
            if k == |Unlines(Encoded(encode, batch[..m]))| + |encode(batch[m])| then m + 1 else m
  {
    var n := |batch| - 1;
    var init := batch[..n];
    SizeStep(encode, batch, m);
    assert batch[..n + 1] == batch;
    if m < n {
      SizeGrows(encode, batch, m + 1, n + 1);
      assert init[..m] == batch[..m];
      SurvivorsAre(encode, init, k, m);
    } else {
      SurvivorsBefore(encode, init, k);
    }
  }

  /** All of a batch survives when all its bytes but the last newline are there. */
  lemma SurvivorsBefore(encode: Encoder, batch: seq<Event>, k: nat)
    requires |Unlines(Encoded(encode, batch))| <= k + 1
    ensures Survivors(encode, batch, k) == |batch|
  {
  }

  /** Whole encoded lines after a newline-ended file, then an unterminated rest. */
  lemma ScanWithRest(encode: Encoder, decode: Decoder, file: seq<Byte>, batch: seq<Event>, rest: seq<Byte>)
    requires AllEncodable(batch)
    requires Codec(encode, decode) && Terminated(file) && NEWLINE !in rest
    ensures var raw := file + (Unlines(Encoded(encode, batch)) + rest);
            && Scan(decode, raw).events == Scan(decode, file).events + batch
            && raw[Consumed(raw)..] == rest
  {
    var ls := Encoded(encode, batch);
    SplitIsUnique(ls, rest);
    DecodedEncoded(encode, decode, batch);
    ScanAfterTerminated(decode, file, Unlines(ls) + rest);
  }

  /** `m` whole lines of a batch and part of the next, which counts once its text is complete. */
  lemma TornAt(encode: Encoder, decode: Decoder, file: seq<Byte>, batch: seq<Event>, m: nat, cut: nat)
    requires AllEncodable(batch)
    requires Codec(encode, decode) && Terminated(file) && m < |batch| && cut <= |encode(batch[m])|
    ensures Recover(decode, file + (Unlines(Encoded(encode, batch[..m])) + encode(batch[m])[..cut])).events
         == Scan(decode, file).events + batch[..if cut == |encode(batch[m])| then m + 1 else m]
  {
    var rest := encode(batch[m])[..cut];
    ScanWithRest(encode, decode, file, batch[..m], rest);
    EncodedNonempty(encode, decode, batch[m]);
    if cut == |encode(batch[m])| {
      assert rest == encode(batch[m]);
      assert batch[..m + 1] == batch[..m] + [batch[m]];
      Associates(Scan(decode, file).events, batch[..m], [batch[m]]);
    }
  }

  /** A write cut off after any number of its bytes. */
  lemma TornBatch(encode: Encoder, decode: Decoder, file: seq<Byte>, batch: seq<Event>, k: nat)
    requires AllEncodable(batch)
    requires Codec(encode, decode) && Terminated(file) && k < |BatchBytes(encode, batch)|
    ensures Recover(decode, file + BatchBytes(encode, batch)[..k]).events
         == Scan(decode, file).events + batch[..Survivors(encode, batch, k)]
  {
    var ls := Encoded(encode, batch);
    PayloadIs(ls);
    if |batch| == 0 {
      assert file + BatchBytes(encode, batch)[..0] == file;
    } else {
      var m := TornLines(ls, k);
      assert ls[..m] == Encoded(encode, batch[..m]);
      SurvivorsAre(encode, batch, k, m);
      TornAt(encode, decode, file, batch, m, k - |Unlines(ls[..m])|);
    }
  }

  /**
   * Crash consistency.  After any completed appends to a newline-ended file, whatever it held
   * before, and a last write torn at any byte, recovery returns every acknowledged event in order
   * and then exactly those events of the torn batch whose text reached the file.
   */
  lemma CrashConsistency(encode: Encoder, decode: Decoder, file: seq<Byte>,
                         acked: seq<seq<Event>>, torn: seq<Event>, k: nat)
    requires AllEncodable(torn) && forall i :: 0 <= i < |acked| ==> AllEncodable(acked[i])
    requires Codec(encode, decode) && Terminated(file) && k < |BatchBytes(encode, torn)|
    ensures Recover(decode, Written(encode, file, acked) + BatchBytes(encode, torn)[..k]).events
         == Scan(decode, file).events + Flatten(acked) + torn[..Survivors(encode, torn, k)]
  {
    RunOfBatchesScans(encode, decode, file, acked);
    TornBatch(encode, decode, Written(encode, file, acked), torn, k);
  }

  // ----- the unterminated last line -----------------------------------------------

  /** Text after a complete JSON object keeps it from decoding. */
  ghost predicate NoGlue(encode: Encoder, decode: Decoder) {
    forall t: Line, e: Event {:trigger decode(t + encode(e))} ::
      decode(t).Some? && Encodable(e) ==> decode(t + encode(e)).None?
  }

  /** The scan after a restart on `raw`: recover, truncate, append one batch, read it all again. */
  function Reread(encode: Encoder, decode: Decoder, raw: seq<Byte>, batch: seq<Event>): seq<Event> {
    Scan(decode, raw[..Recover(decode, raw).validBytes] + BatchBytes(encode, batch)).events
  }

  lemma GluedLine(encode: Encoder, decode: Decoder, file: seq<Byte>, batch: seq<Event>)
    requires AllEncodable(batch)
    requires Codec(encode, decode) && NoGlue(encode, decode) && |batch| > 0
    requires decode(file[Consumed(file)..]).Some?
    ensures Scan(decode, file + BatchBytes(encode, batch)).events == Scan(decode, file).events + batch[1..]
  {
    var t, l, rest := file[Consumed(file)..], encode(batch[0]), Encoded(encode, batch[1..]);
    assert Encoded(encode, batch) == [l] + rest;
    PayloadIs([l] + rest);
    LinesAreTheSplit(file);
    LinesConcat(file, BatchBytes(encode, batch));
    LinesOfGlued(t, l, rest);
    GluedDecodes(decode, Lines(file), t + l, rest);
    DecodedEncoded(encode, decode, batch[1..]);
  }

  lemma GluedDecodes(decode: Decoder, a: seq<Line>, glued: Line, rest: seq<Line>)
    requires decode(glued).None?
    ensures Decoded(decode, a + ([glued] + rest)) == Decoded(decode, a) + Decoded(decode, rest)
  {
    DecodedConcat(decode, a, [glued] + rest);
    DecodedConcat(decode, [glued], rest);
    DecodedOne(decode, glued);
  }

  lemma HeadLine(l: Line, rest: seq<Line>)
    ensures Unlines([l] + rest) == l + ([NEWLINE] + Unlines(rest))
  {
    UnlinesConcat([l], rest);
    UnlinesOne(l);
  }

  /** An unterminated text swallows the first line written after it. */
  lemma LinesOfGlued(t: Line, l: Line, rest: seq<Line>)
    requires NEWLINE !in t && NEWLINE !in l && AreLines(rest)
    ensures Lines(t + Unlines([l] + rest)) == [t + l] + rest
  {
    GluedUnlines(t, l, rest);
    SplitIsUnique([t + l] + rest, []);
    assert Unlines([t + l] + rest) + [] == Unlines([t + l] + rest);
  }

  /** What an unterminated text makes of the bytes written after it: their first line is not on its own. */
  lemma RestLines(rest: Line, more: seq<Byte>)
    requires NEWLINE !in rest
    ensures Lines(rest + more) == if |Lines(more)| == 0 then [] else [rest + Lines(more)[0]] + Lines(more)[1..]
  {
    var ls, tail := Lines(more), more[Consumed(more)..];
    LinesAreTheSplit(more);
    assert more == Unlines(ls) + tail;
    Associates(rest, Unlines(ls), tail);
    if |ls| == 0 {
      assert rest + more == Unlines([]) + (rest + tail);
      SplitIsUnique([], rest + tail);
    } else {
      SplitHead(rest, ls, tail);
    }
  }

  lemma SplitHead(rest: Line, ls: seq<Line>, tail: Line)
    requires NEWLINE !in rest && AreLines(ls) && NEWLINE !in tail && |ls| > 0
    ensures Lines((rest + Unlines(ls)) + tail) == [rest + ls[0]] + ls[1..]
  {
    assert ls == [ls[0]] + ls[1..];
    GluedUnlines(rest, ls[0], ls[1..]);
    SplitIsUnique([rest + ls[0]] + ls[1..], tail);
  }

  lemma GluedUnlines(rest: Line, l: Line, ls: seq<Line>)
    ensures rest + Unlines([l] + ls) == Unlines([rest + l] + ls)
  {
    HeadLine(l, ls);
    HeadLine(rest + l, ls);
    Associates(rest, l, [NEWLINE] + Unlines(ls));
  }

  lemma DecodedOne(decode: Decoder, l: Line)
    ensures Decoded(decode, [l]) == if decode(l).Some? then [decode(l).value] else []
  {
    var one: seq<Line> := [l];
    assert one[..0] == [];
  }

  lemma UnlinesOne(l: Line)
    ensures Unlines([l]) == l + [NEWLINE]
  {
    var one: seq<Line> := [l];
    assert one[..0] == [];
  }

  /**
   * Recovery keeps a decodable last line without giving it its newline.  An append after the
   * restart then reads back whole exactly when the kept file ends in a newline or the batch is
   * empty; otherwise the kept event and the first appended one are lost to one glued line.
   */
  lemma AppendAfterRecovery(encode: Encoder, decode: Decoder, raw: seq<Byte>, batch: seq<Event>)
    requires AllEncodable(batch)
    requires Codec(encode, decode) && NoGlue(encode, decode)
    ensures var r := Recover(decode, raw);
            var kept := raw[..r.validBytes];
            && (Reread(encode, decode, raw, batch) == r.events + batch <==> Terminated(kept) || |batch| == 0)
            && (!Terminated(kept) && |batch| > 0 ==>
                  |r.events| > 0 && Reread(encode, decode, raw, batch) == r.events[..|r.events| - 1] + batch[1..])
  {
    var r := Recover(decode, raw);
    var kept := raw[..r.validBytes];
    RecoverTwice(decode, raw);
    if Terminated(kept) {
      BatchScans(encode, decode, kept, batch);
    } else if |batch| > 0 {
      GluedLine(encode, decode, kept, batch);
    } else {
      ClosedLine(encode, decode, kept);
    }
  }

  /**
   * It does happen: a write torn just before its last newline, a restart that keeps the event,
   * and one more append lose that event and the first appended one.
   */
  lemma TornAtTheNewline(encode: Encoder, decode: Decoder, file: seq<Byte>, e: Event, batch: seq<Event>)
    requires Codec(encode, decode) && NoGlue(encode, decode) && Terminated(file)
    requires Encodable(e) && AllEncodable(batch) && |batch| > 0
    ensures Recover(decode, file + encode(e)).events == Scan(decode, file).events + [e]
    ensures Reread(encode, decode, file + encode(e), batch) == Scan(decode, file).events + batch[1..]
  {
    var raw, es := file + encode(e), Scan(decode, file).events;
    assert Unlines(Encoded(encode, [])) + encode(e) == encode(e);
    ScanWithRest(encode, decode, file, [], encode(e));
    EncodedNonempty(encode, decode, e);
    assert es + [] == es;
    assert raw[..|raw|] == raw;
    GluedLine(encode, decode, raw, batch);
  }

  /** The newline an empty batch writes completes the kept line. */
  lemma ClosedLine(encode: Encoder, decode: Decoder, file: seq<Byte>)
    requires decode(file[Consumed(file)..]).Some?
    ensures Scan(decode, file + BatchBytes(encode, [])).events
         == Scan(decode, file).events + [decode(file[Consumed(file)..]).value]
  {
    var t := file[Consumed(file)..];
    LinesAreTheSplit(file);
    LinesConcat(file, [NEWLINE]);
    UnlinesOne(t);
    assert t + [NEWLINE] == Unlines([t]) + [];
    SplitIsUnique([t], []);
    DecodedConcat(decode, Lines(file), [t]);
    assert Decoded(decode, [t]) == [decode(t).value] by { DecodedOne(decode, t); }
    assert BatchBytes(encode, []) == [NEWLINE];
  }
}

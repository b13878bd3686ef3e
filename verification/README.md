# The event log's delivery stack

rxweave moves events through several layers: a factory mints ids, a store keeps an append-only log
and hands it to subscribers, a file layer keeps the log as JSON lines, a cloud client reconnects to
a server's store, and a supervisor feeds agents and persists how far each has come. One idea ties
the layers together: an exclusive cursor over a strictly id-ordered log gives gap-free, repeat-free
delivery. This project models the layers as state machines and proves what every run of them keeps,
together with exact conditions wherever a stronger claim of the code's own comments does not hold.

## How the model is laid out

| file | what it models |
|---|---|
| `Ulid.dfy` | ids as text: base-32 encoding, the minting factory, and string order as number order |
| `Events.dfy` | events, filters, exclusive cursors and the reads over a log |
| `MemoryStore.dfy` | the in-memory store as small steps (store a batch, publish one event, subscribe, take) |
| `Recovery.dfy` | the byte layer: line scanner, cold-start recovery, append writer |
| `PrefixCode.dfy` | a text for events that meets all that the byte layer asks of its codec |
| `FileStore.dfy`, `FileClients.dfy` | the file store's shared file, log and read offset, and what its clients write and are handed |
| `CloudStore.dfy` | the reconnecting subscriber against a whole `MemoryStore` machine as its server |
| `Supervisor.dfy`, `Repeats.dfy` | an agent on top of the store: safety, progress, how much a crash repeats, and the causality of any number of agents |
| `FleetAgents.dfy` | any number of agents on one store, each seeing a run of the one-agent machine |
| `AgentTicks.dfy` | the agents' telemetry heartbeats |
| `Heartbeat.dfy` | the keep-alive interval and the client's watchdog |
| `Registry.dfy` | event definitions, batches of them, and the memoized digest |
| `Lineage.dfy` | the sidebar's event log and ancestry walk |
| `CanvasFold.dfy`, `Bridge.dfy` | the canvas projection and the debounce that feeds it |

Pure rules are functions; each object the source updates in place is also a class whose methods are
proved to do what those functions say, so the theorems about the functions are theorems about the
objects. The cloud subscription's methods state their effect directly; `CloudStore.ItemReceived` and
`CloudStore.DrainRuns` show that the machine's steps have the same effect. A machine's `Next` lists
its steps, `Run` folds a sequence of them, a step that does not apply leaves the state alone, `Inv`
is what every step keeps, and `Never(bad, s, steps)` says that no step of the run is bad in the state
it is taken in.

## Conventions

- From `Events.dfy` upwards an id is the number its 26 letters spell. `Ulid.StringOrderIsIdOrder`
  shows that the stores' string comparisons are exactly comparisons of these numbers.
- Clock readings and random bytes are inputs of the steps, so every theorem holds for every clock.
  Clock readings for stamps are real numbers, event timestamps whole milliseconds. Order is claimed
  while the last stamp is below 32^10, the largest number ten digits hold;
  `Ulid.StampLimitIsSharp` shows the bound cannot be dropped.
- The glob library, SHA-256, the rendering of numbers and the JSON codec are function parameters.
  What the byte layer needs of the codec is the predicate `Recovery.Codec`, for the events the schema
  accepts (`Recovery.Encodable`; the store cannot construct any other): decoding inverts encoding,
  encoded text holds no newline byte (section 7 of RFC 8259 escapes control characters, section 3 of
  RFC 3629 keeps 0x0A out of multi-byte sequences), and no proper prefix of an encoded event decodes.
  `Recovery.NoGlue` adds that nothing decodes when an encoded event follows a complete one without a
  newline. `PrefixCode.MeetsCodec` exhibits functions that meet both. Tailing without appends asks
  nothing of the codec.
- A subscriber's live side is a sliding window of 1024 events. `lost` counts wanted events that were
  pushed out untaken, and `gap` is how many events were handed out ahead of the first of them. A full
  window is no loss yet for a client that reconnects: what counts is whether it is ever handed an
  event from behind the gap. The theorems say exactly that, on the steps of the run
  (`MemoryStore.SnapshotThenLive`, `CloudStore.CloudSubscriber`); that no publication finds the
  window full is enough for it (`MemoryStore.KeepingUpLosesNothing`, `CloudStore.KeepingUpIsGapless`,
  `Supervisor.KeepingUpIsGapless`).

## Where the code and its comments part ways

The model follows the code.

- `clampIntervalMs` sends positive infinity to the minimum, because it is not finite; the comment
  says values above the maximum go down to the maximum (packages/protocol/src/Heartbeat.ts:75-85).
- The cloud client's comments promise that nothing is lost and nothing duplicated
  (packages/store-cloud/src/CloudStore.ts:169-173, 262-267). A drain page that fails transiently
  starts the drain over from the original cursor, so events may repeat; a "latest" subscriber that
  has received nothing resolves "latest" afresh when it reconnects; and a server window may overflow,
  after which the client is handed later events and never the dropped ones.
- An agent handed an event from behind a gap in its window persists a cursor past events it never
  handled (packages/runtime/src/Supervisor.ts:198-202).
- A supervised agent started at "latest" subscribes at "latest" again on each retry and so skips the
  event it failed on (packages/runtime/src/Supervisor.ts:172, 205-208).
- `append` of the file store counts only its own bytes (packages/store-file/src/FileStore.ts:170-183),
  which is right only when nothing was unread, not even part of a line; an empty batch writes a lone
  newline and counts none. A poll that reads between an append's write and its commit leaves the
  offset a batch past the end of the file.
- The tail poll drops an id that is already in the log but keeps one repeated inside what it reads
  (packages/store-file/src/FileStore.ts:132-139), so what a store holds can depend on when it polled.
- A subscriber of the file store is not handed a foreign event whose id is not above the last one of
  its snapshot (packages/store-file/src/FileStore.ts:201, 215-220).
- Recovery keeps a decodable last line without its newline
  (packages/store-file/src/Recovery.ts:90-95), so the next append is glued to it.
- The live filter never looks at the cursor (packages/store-memory/src/MemoryStore.ts:97-103), so a
  cursor ahead of the store is not honoured.

## Model

| member | source | states |
|---|---|---|
| Ulid.StringOrderIsIdOrder | packages/schema/src/Ids.ts:3-6 | on well-formed ids, string order and string equality are the order and equality of the numbers they spell |
| Ulid.PatternIsAlphabet | packages/schema/src/Ids.ts:3-6 | the id pattern, read as ranges, admits the letters of the alphabet and no others |
| Ulid.IdTextIsEventId | packages/schema/src/Ids.ts:3-6 | every minted text matches the pattern |
| Ulid.TextOrder | packages/schema/src/Ulid.ts:4-14 | equally long numerals in this alphabet compare as strings exactly as their numbers compare |
| Ulid.NumberOfDigits | packages/schema/src/Ulid.ts:6-14 | `width` digits spell the number modulo 32^width |
| Ulid.EncodeTime | packages/schema/src/Ulid.ts:6-14 | the digit loop yields the ten base-32 digits of the rounded-down stamp |
| Ulid.TimeOrder | packages/schema/src/Ulid.ts:6-14 | encoded stamps compare as strings exactly as the stamps modulo 32^10 |
| Ulid.WrappedDigit | packages/schema/src/Ulid.ts:21-25 | a digit cut from the 32-bit buffer is the digit of the unbounded number, although higher bits are gone |
| Ulid.EncodeRandom | packages/schema/src/Ulid.ts:16-29 | for byte arrays of any length, the first 16 letters of the input's big-endian bits regrouped by five |
| Ulid.TenBytes | packages/schema/src/Ulid.ts:47-51 | ten bytes give exactly sixteen digits, which spell the same 80-bit number |
| Ulid.RandomPartInjective | packages/schema/src/Ulid.ts:47-51 | two random parts are the same text exactly when their ten bytes are the same |
| Ulid.IdOrderOfText | packages/schema/src/Ulid.ts:41-52 | an id stands at its stamp modulo 32^10 times 32^16 plus its random number |
| Ulid.Factory.Next | packages/schema/src/Ulid.ts:39-52 | the new stamp is not behind the clock, at least one past the last stamp, and one of the two, and the id spells it and the random bytes and matches the pattern |
| Ulid.IdTextOrder | packages/schema/src/Ulid.ts:41-52 | two ids compare by stamp modulo 32^10, ties by random bytes, both directions |
| Ulid.MintedIdsIncrease | packages/schema/src/Ulid.ts:39-52 | ids of one factory strictly increase as strings over any clock, stuck or backwards, below the stamp bound |
| Ulid.StampFollowsClock | packages/schema/src/Ulid.ts:39-44 | after a run of calls the stamp is past each clock reading by at least the number of calls since, and exactly that for one of them or for the calls alone |
| Ulid.LaterFactorySortsAfter | packages/schema/src/Ulid.ts:33-52 | across a restart, an id minted at a clock reading past another factory's last stamp sorts after all of that factory's ids |
| Ulid.StampLimitIsSharp | packages/schema/src/Ulid.ts:6-14 | the first stamp past the bound sorts before its predecessor |
| Events.QueryAfterMeans | packages/store-memory/src/MemoryStore.ts:128-137 | the two-step filter is one filtered read after the exclusive cursor, cut at the limit, for every cursor |
| Events.PageIsFull | packages/store-memory/src/MemoryStore.ts:128-137 | a page is the beginning of the read and holds as many events as the limit allows and are left; a negative limit leaves out as many at the end |
| Events.FilterIsConjunction | packages/store-memory/src/MemoryStore.ts:23-30 | a filter is the conjunction of its fields taken one by one, and an absent or empty one accepts everything |
| Events.FilterReadsItsFields | packages/store-memory/src/MemoryStore.ts:23-30 | fields of an event that the filter does not mention never change its verdict |
| Events.FilteredRead | packages/store-memory/src/MemoryStore.ts:128-137 | a read under a filter gives exactly the logged events after the cursor whose kind matches a glob, whose actor and source are listed, and which are not older than `since` |
| Events.LatestCursorIsTheEnd | packages/store-memory/src/MemoryStore.ts:139-141 | reading on from the latest cursor gives exactly what is appended later |
| Events.ReadOn | packages/store-memory/src/MemoryStore.ts:133-135 | over an ordered log, reading after a delivered event gives exactly what followed it in the first read |
| Events.RestGrows | packages/store-memory/src/MemoryStore.ts:60 | a grown log adds to a read only the matching new events, at its end |
| Events.PageStep | packages/store-memory/src/MemoryStore.ts:128-137 | a page is a prefix of what is left, and reading on from its last id leaves the remainder |
| Events.ReadAllPages | packages/store-memory/src/MemoryStore.ts:128-137 | paging ends for every limit; with a limit of at least one the pages joined are the unlimited read, else only the first page |
| MemoryStore.MintKeepsInputs | packages/store-memory/src/MemoryStore.ts:45-59 | envelopes carry their inputs position by position, with the defaults for a missing actor and source |
| MemoryStore.MintAscends | packages/store-memory/src/MemoryStore.ts:46-59 | a batch's ids are strictly ordered and lie between all minted before and all minted after |
| MemoryStore.MintFollowsClock | packages/store-memory/src/MemoryStore.ts:46-59 | no id is behind the clock reading it was minted at |
| MemoryStore.RestartContinues | packages/store-file/src/FileStore.ts:155-169 | after a restart minted batches continue an old log in order as long as the clock has passed the log's last stamp |
| MemoryStore.StepKeeps | packages/store-memory/src/MemoryStore.ts:42-111 | storing a batch, publishing, subscribing and taking each keep the log ordered and every subscriber owed what it asked for |
| MemoryStore.RunKeeps | packages/store-memory/src/MemoryStore.ts:42-111 | so does every interleaving of them |
| MemoryStore.SubscriberOwed | packages/store-memory/src/MemoryStore.ts:72-106 | received, waiting and half-published events plus the lost ones number what was asked for, and are it when none is lost |
| MemoryStore.SnapshotThenLive | packages/store-memory/src/MemoryStore.ts:72-106 | for any interleaving, a subscriber whose cursor is not ahead of the store holds exactly the filtered log after its cursor if and only if no publication pushed a wanted event out of its full window, and has received a prefix of it if and only if it took nothing from its window after such a loss |
| MemoryStore.FilteredDelivery | packages/store-memory/src/MemoryStore.ts:72-106 | a subscriber under a filter from whose window nothing was pushed out holds exactly the logged events that its cursor and the filter's fields ask for |
| MemoryStore.TakeMoves | packages/store-memory/src/MemoryStore.ts:97-105 | a take hands out the head of the replay, else the head of the window if it passes the live filter, and touches no other subscriber |
| MemoryStore.TakesHandOutAll | packages/store-memory/src/MemoryStore.ts:97-105 | as many takes as events wait hand all of them out in order and leave nothing waiting |
| MemoryStore.SlowSubscriber | packages/store-memory/src/MemoryStore.ts:37 | however slow, what is delivered is in order, without repeats, from the log and asked for |
| MemoryStore.HandedUpToGap | packages/store-memory/src/MemoryStore.ts:97-105 | the first events handed out are a prefix of what was asked for exactly up to the gap |
| MemoryStore.LosesExactly | packages/store-memory/src/MemoryStore.ts:37 | from any state, a subscriber has lost something after a run if and only if some publication found its window full with a wanted event at the head |
| MemoryStore.IdleLoses | packages/store-memory/src/MemoryStore.ts:37 | from every store, a new subscriber that is idle while a batch is published loses exactly what the batch has over 1024 |
| MemoryStore.KeepingUpLosesNothing | packages/store-memory/src/MemoryStore.ts:37 | a subscriber whose window is never full at a publication loses nothing |
| MemoryStore.FutureCursorIsNotHonoured | packages/store-memory/src/MemoryStore.ts:97-103 | over all filters and runs, nothing at or before a cursor is ever handed out if and only if the cursor is below every id the store can still mint |
| MemoryStore.LatestOwes | packages/store-memory/src/MemoryStore.ts:87-103 | a "latest" subscription is owed all after an earlier point exactly when nothing matching came in between |
| MemoryStore.AppendAllKeeps | packages/store-memory/src/MemoryStore.ts:42-65 | a whole append keeps the invariant |
| MemoryStore.Store.MintBatch | packages/store-memory/src/MemoryStore.ts:45-59 | the minting loop computes the batch the machine stores |
| MemoryStore.Store.PublishBatch | packages/store-memory/src/MemoryStore.ts:61-63 | the publishing loop hands every envelope to every window in order |
| MemoryStore.Store.Append | packages/store-memory/src/MemoryStore.ts:42-65 | an undisturbed append is the machine's batch and all its publications, and returns what it added to the log |
| MemoryStore.Store.Subscribe | packages/store-memory/src/MemoryStore.ts:72-106 | takes the snapshot and an empty window in one locked step; the replay and the live filter are what cursor and filter ask for, field by field |
| MemoryStore.Store.Take | packages/store-memory/src/MemoryStore.ts:97-105 | a pull hands out the replay's head, else the window's if it passes the live filter |
| Recovery.LinesAreTheSplit | packages/store-file/src/Recovery.ts:48-58 | the consumed bytes are the complete lines joined by newlines, and no newline is left over |
| Recovery.SplitIsUnique | packages/store-file/src/Recovery.ts:48-58 | no other cut into newline-free lines and a newline-free rest exists |
| Recovery.LinesConcat | packages/store-file/src/Recovery.ts:48-58 | scanning on from the last line boundary sees exactly the lines an earlier scan did not, wherever the bytes were cut |
| Recovery.ScanLines | packages/store-file/src/Recovery.ts:41-60 | the byte loop returns the decodable lines' events in order, the number of the others, and the length of the complete lines |
| Recovery.ScanAndRecover | packages/store-file/src/Recovery.ts:80-107 | recovery adds a decodable unterminated line and counts an undecodable one as torn |
| Recovery.Recover | packages/store-file/src/Recovery.ts:80-107 | for any file, valid and truncated bytes add up to its length |
| Recovery.RecoverTwice | packages/store-file/src/FileStore.ts:58-67 | for any file, recovering after the truncate finds the same events and nothing more to cut |
| Recovery.PayloadIs | packages/store-file/src/Writer.ts:30 | the written bytes are the lines each with a newline, or one empty line for an empty batch |
| Recovery.Writer.AppendLines | packages/store-file/src/Writer.ts:26-36 | appends exactly those bytes to the file |
| Recovery.Writer.Truncate | packages/store-file/src/Writer.ts:38-39 | keeps the given number of leading bytes |
| Recovery.WrittenScans | packages/store-file/src/Writer.ts:26-36 | what is written is read back whole, in order, newline-ended |
| Recovery.TornBatch | packages/store-file/src/Recovery.ts:90-98 | a write cut at any byte recovers to the file's events and those of the batch whose text arrived whole |
| Recovery.CrashConsistency | packages/store-file/src/Recovery.ts:62-107 | after any acknowledged batches and a torn last one, recovery returns all acknowledged events in order and a prefix of the torn batch |
| Recovery.AppendAfterRecovery | packages/store-file/src/Recovery.ts:93-95 | an append after a restart reads back whole if and only if the kept file ends in a newline or the batch is empty; otherwise exactly the kept last event and the first appended one are lost |
| Recovery.TornAtTheNewline | packages/store-file/src/Recovery.ts:93-95 | it happens after every write torn just before its last newline |
| PrefixCode.MeetsCodec | packages/store-file/src/Recovery.ts:24-40 | there are an encoder and a decoder that meet every premise the byte layer makes |
| FileStore.PollSyncs | packages/store-file/src/FileStore.ts:88-150 | whatever is unread, a poll stops at the last line boundary, and gives the log of one scan if and only if it meets no id already taken in |
| FileStore.QuietAppendSyncs | packages/store-file/src/FileStore.ts:153-184 | with nothing unread, an append moves the offset exactly past its own bytes |
| FileStore.RunSyncs | packages/store-file/src/FileStore.ts:88-184 | foreign writes in any cut, polls that meet new ids and quiet appends keep log and offset in step with the file |
| FileStore.TailReadsEverything | packages/store-file/src/FileStore.ts:88-150 | from any file and after any such run the offset is a line boundary of what was written since, the log is what was recovered and one scan from there to the offset, and one more poll takes in the rest if and only if it meets new ids |
| FileStore.TailFromBoundary | packages/store-file/src/FileStore.ts:88-150 | from a file that ends in a newline, the log is one scan of the whole file up to the offset |
| FileStore.TailIsOneScan | packages/store-file/src/Recovery.ts:90-95 | from any file, that poll gives what one scan of the whole file gives if and only if recovery kept no line without its newline, or the next line written merely completes it |
| FileStore.RepeatsDependOnPolls | packages/store-file/src/FileStore.ts:130-139 | over any run of foreign writes, polls and quiet appends the store stays in step throughout if and only if no poll meets an id already taken in |
| FileStore.RepeatIsDropped | packages/store-file/src/FileStore.ts:130-139 | from every file there is a run, a foreign line with a known id and a poll, after which the log lacks an event that one scan finds |
| FileStore.RepeatIsKept | packages/store-file/src/FileStore.ts:130-139 | the same line written twice is in the log once when polled in between and twice when polled once |
| FileStore.AppendSyncsExactly | packages/store-file/src/FileStore.ts:170-183 | an append leaves the offset right if and only if nothing was unread, whole lines or a cut one |
| FileStore.PollBetweenWriteAndCommit | packages/store-file/src/FileStore.ts:170-183 | whatever was unread, a poll that reads between an append's write and its commit leaves the offset a batch past the end, whichever commits first, hiding as many later bytes |
| FileStore.PollBetweenDoubles | packages/store-file/src/FileStore.ts:130-139 | whatever was unread, what both orders of the commits make of the log: if the poll commits first, the batch but its first event is there twice, otherwise once and ahead of the foreign lines, and its first line adds whatever it decodes to behind the cut one; with no line cut, the whole batch twice or the parts in commit order |
| FileStore.PollReadBeforeWrite | packages/store-file/src/FileStore.ts:93-145 | a poll that read before the write leaves the offset right in either order if and only if no line was cut at its end, and the log in commit order |
| FileClients.FileSubscriberMisses | packages/store-file/src/FileStore.ts:191-223 | from any file and over any run of foreign writes, polls, appends, publications, subscriptions and takes, a subscriber whose cursor is not past its snapshot holds all it asked for if and only if nothing it asked for was taken in later with an id not above its snapshot's last, and no publication pushed an event out of its full window |
| FileClients.LateLineIsMissed | packages/store-file/src/FileStore.ts:215-220 | from every file with events there is a run in which a foreign line joins the log and a subscriber that asked for it is never handed it |
| FileClients.FileTakesHandOutAll | packages/store-file/src/FileStore.ts:191-223 | a file subscriber that takes as often as events wait is handed all of them and leaves none waiting |
| FileClients.MintedIsEncodable | packages/store-file/src/FileStore.ts:155-169 | every batch minted from acceptable inputs can be encoded |
| FileStore.CountedIsWritten | packages/store-file/src/FileStore.ts:170-175 | the bytes counted line by line are the bytes written, except for an empty batch |
| FileStore.Store.constructor | packages/store-file/src/FileStore.ts:55-71 | opening recovers the file, cuts a torn tail and starts the offset after what was kept |
| FileStore.Store.PollFile | packages/store-file/src/FileStore.ts:92-145 | one wake-up of the poll fiber, both early returns included, is the machine's poll, and what joins the log is published in order |
| FileStore.Store.WriteHalf | packages/store-file/src/FileStore.ts:170-171 | the write changes the file only |
| FileStore.Store.CommitHalf | packages/store-file/src/FileStore.ts:172-183 | the locked half adds the batch to the log, publishes it in order, and adds its counted bytes to the offset |
| CloudStore.StepKeeps | packages/store-cloud/src/CloudStore.ts:161-305 | every step of client, network and server keeps the delivery invariant |
| CloudStore.CloudSubscriber | packages/store-cloud/src/CloudStore.ts:161-305 | through any server steps, heartbeats, failures and reconnects, what the current attempt delivered is a prefix of what was asked for if and only if no step received an event from behind a gap in a server window; abandoned drains were prefixes whatever happens and are repeated in full |
| CloudStore.GaplessExactly | packages/store-cloud/src/CloudStore.ts:208-235 | only a step that receives such an event delivers past a gap: a window that overflows and whose connection ends before that does no harm |
| CloudStore.MayPassGap | packages/store-cloud/src/CloudStore.ts:243-255 | from every server there is a run in which a batch of 1025 overflows a stalled connection and its second event is delivered first |
| CloudStore.OverflowMayBeHarmless | packages/store-cloud/src/CloudStore.ts:180-190 | and one in which that connection fails and the next owes the client the whole batch |
| CloudStore.AbandonedInPages | packages/store-cloud/src/CloudStore.ts:268-287 | every attempt a drain gives up was made of whole pages, each read from where the one before ended off the log as it then was |
| CloudStore.NothingAbandoned | packages/store-cloud/src/CloudStore.ts:268-299 | only a transient failure of a drain page starts a stream over |
| CloudStore.CaughtUpHasEverything | packages/store-cloud/src/CloudStore.ts:257-303 | a connection with nothing left to send has delivered every event asked for, those appended around the end of the drain included, if and only if the client never received one from behind a gap and its current window dropped none |
| CloudStore.ExactlyOnceExactly | packages/store-cloud/src/CloudStore.ts:268-299 | such a client has been given each event exactly once if and only if, besides, every drain page that failed did so before its attempt had delivered anything |
| CloudStore.NeverStuck | packages/store-cloud/src/CloudStore.ts:161-305 | from every state but a dead one, drains and lost connections included, steps of which none fails lead to where the client has caught up |
| CloudStore.CatchesUp | packages/store-cloud/src/CloudStore.ts:208-235 | a connection catches up by publishing what is half published, then sending and receiving what waits |
| CloudStore.FailuresEnd | packages/store-cloud/src/CloudStore.ts:243-299 | a permanent failure ends the subscription with what it has delivered, a transient one loses the connection or starts the drain over |
| CloudStore.DeadStaysDead | packages/store-cloud/src/CloudStore.ts:243-255 | after that nothing is delivered any more |
| CloudStore.SentinelEnds | packages/store-cloud/src/CloudStore.ts:219-232 | an unknown sentinel ends the subscription after everything ahead of it was delivered |
| CloudStore.DrainMayRepeat | packages/store-cloud/src/CloudStore.ts:286-299 | from every server with a wanted event there is a run whose caught-up client was given a page twice |
| CloudStore.DrainRuns | packages/store-cloud/src/CloudStore.ts:268-287 | undisturbed, the machine's drain steps deliver the whole rest of the read and end |
| CloudStore.ItemReceived | packages/store-cloud/src/CloudStore.ts:215-235 | receiving an item delivers events, drops heartbeats and dies on unknown sentinels, in every state |
| CloudStore.KeepingUpIsGapless | packages/store-cloud/src/CloudStore.ts:243-255 | if no publication finds the current connection's window full, nothing is received from behind a gap and the current window has dropped nothing |
| CloudStore.WireIsAsked | packages/store-cloud/src/CloudStore.ts:208-235 | delivered and in-flight events of a connection are a prefix of what was asked for if and only if the server has sent nothing from behind a gap |
| CloudStore.AtWorstGaps | packages/store-cloud/src/CloudStore.ts:161-305 | whatever windows overflow, every attempt is in order, without repeats, and only events asked for |
| CloudStore.LatestForgets | packages/store-cloud/src/CloudStore.ts:182-184 | a reconnect at "latest" owes all since the first snapshot if and only if nothing wanted was appended before it |
| CloudStore.LatestMayMiss | packages/store-cloud/src/CloudStore.ts:182-184 | from every server there is a run in which a connected "latest" subscriber is never owed an event appended while it was connected |
| CloudStore.Subscription.Connect | packages/store-cloud/src/CloudStore.ts:180-190 | resumes at the last delivery, or at the caller's cursor when there is none |
| CloudStore.Subscription.OnItem | packages/store-cloud/src/CloudStore.ts:215-235 | events are emitted and recorded, heartbeats dropped, unknown sentinels fail |
| CloudStore.Subscription.Drain | packages/store-cloud/src/CloudStore.ts:268-287 | one attempt against a server that appends between the reads and may fail any of them: the pages are emitted and recorded in order until one is empty or a read fails |
| CloudStore.AttemptIs | packages/store-cloud/src/CloudStore.ts:268-287 | what such an attempt emits is whole pages, a prefix of what was asked for, and all the last read's log had once a page is empty |
| CloudStore.Appender.OnAppended | packages/store-cloud/src/CloudStore.ts:143-155 | the client's latest cursor is that of the events it appended itself |
| Supervisor.AgentCursor.FlushCursor | packages/runtime/src/Supervisor.ts:156-163 | persists the pending cursor if there is one and restarts the count |
| Supervisor.AgentCursor.EventDone | packages/runtime/src/Supervisor.ts:198-202 | moves the pending cursor, counts, and flushes at the threshold |
| Supervisor.StepKeeps | packages/runtime/src/Supervisor.ts:156-210 | handler success or failure, retry, the three flushes, exit and crash all keep persisted and pending cursor behind the work |
| Supervisor.DeliveredIsSafe | packages/runtime/src/Supervisor.ts:174-203 | when an event's emits are in, all wanted events up to it are done |
| Supervisor.SavedIsNeverAhead | packages/runtime/src/Supervisor.ts:156-210 | from "earliest" or a saved id, as long as no delivery came from behind a gap in the agent's window, every matching event up to the persisted cursor was handled and its emits appended, through any failures and restarts |
| Supervisor.AgentMayRunAhead | packages/runtime/src/Supervisor.ts:198-202 | without that proviso there is a run from every store that persists a cursor past a matching event never handled |
| Supervisor.RunRecords | packages/runtime/src/Supervisor.ts:187-196 | what counts as done is in the log, each emit citing the event it was emitted for |
| Supervisor.EmitsAreLogged | packages/runtime/src/Supervisor.ts:187-196 | each emit is logged as the handler gave it, with the agent's id and "agent" where it named no actor and no source |
| Supervisor.EndingsPersist | packages/runtime/src/Supervisor.ts:205-236 | a timer tick and a clean exit persist what is pending, a crash persists nothing, and the next life starts where was persisted |
| Supervisor.WorksOff | packages/runtime/src/Supervisor.ts:174-203 | an idle agent is handed all that waits and completes it |
| Supervisor.NeverStuck | packages/runtime/src/Supervisor.ts:174-210 | from every state, running or not, steps of which none fails lead to where the agent is idle and nothing waits |
| Supervisor.RetryAtLatest | packages/runtime/src/Supervisor.ts:205-208 | a retry at "latest" is owed all since the agent's first snapshot if and only if nothing matching was appended before the retry |
| Supervisor.RetryAtLatestSkips | packages/runtime/src/Supervisor.ts:172 | so the failed event is never delivered again in that life |
| Supervisor.AgentMaySkip | packages/runtime/src/Supervisor.ts:205-208 | from every store there is a run that leaves an agent started at "latest" idle and caught up with a matching event not done |
| Supervisor.KeepingUpIsGapless | packages/runtime/src/Supervisor.ts:205-210 | if no publication finds the agent's window full, none of its subscriptions loses a matching event or hands one over from behind a gap, retries and restarts included |
| Supervisor.FleetCausesAreSmaller | packages/runtime/src/Supervisor.ts:187-196 | for any number of agents, in every run whose other inputs cite only logged events, each cause has a strictly smaller id than its effect |
| Supervisor.FreshFleetIsCausal | packages/runtime/src/Supervisor.ts:137-172 | any agents starting on an empty store meet the premise of that |
| FleetAgents.FleetRefines | packages/runtime/src/Supervisor.ts:137-218 | each of any number of agents on one store lives a run of the one-agent machine: its own steps, and what the others do to the store |
| FleetAgents.NoneIsAhead | packages/runtime/src/Supervisor.ts:156-210 | so no agent of a fleet persists a cursor ahead of its work |
| FleetAgents.NoneRepeatsMore | packages/runtime/src/Supervisor.ts:198-202 | nor does a crash make it repeat more than its flush threshold allows |
| Repeats.StepKeeps | packages/runtime/src/Supervisor.ts:156-203 | every step but a handler failure keeps the completed events past the persisted cursor contiguous and bounded |
| Repeats.CompletedPastSaved | packages/runtime/src/Supervisor.ts:198-202 | without handler failures, and as long as no delivery came from behind a gap in the agent's window, at most `cursorFlush.events - 1` completed events lie past the persisted cursor, at every moment, across restarts, and from every start, "latest" included |
| Repeats.MayCompleteLater | packages/runtime/src/Supervisor.ts:198-202 | without that proviso there is a run from every store whose completed events are not the next ones after the persisted cursor |
| Repeats.FlushLeavesNothing | packages/runtime/src/Supervisor.ts:205-236 | without handler failures and crashes, after a timer tick or a clean exit no completed event lies past the persisted cursor |
| Repeats.FlushLeavesNothingExactly | packages/runtime/src/Supervisor.ts:156-163 | with crashes that holds if and only if, before the flush, no more events were completed past the cursor than this life has counted |
| Repeats.CrashLeavesBehind | packages/runtime/src/Supervisor.ts:198-210 | and there is a run with a crash, from every store with two events owed, in which it does not |
| Repeats.CleanRestartsRepeatNothing | packages/runtime/src/Supervisor.ts:156-210 | without handler failures and crashes, whatever flushes, exits and restarts there are, no completed event is handed to the agent again |
| AgentTicks.TickKeeps | packages/runtime/src/Supervisor.ts:94-131 | a tick, whether its append succeeds or fails, keeps each agent's memory equal to its last heartbeat in the log |
| AgentTicks.DueInOrder | packages/runtime/src/Supervisor.ts:98-117 | a batch of heartbeats keeps the order in which the agents were sampled |
| AgentTicks.RunKeeps | packages/runtime/src/Supervisor.ts:88-134 | over any run with any append failures, no agent's appended heartbeats repeat a cursor back to back |
| AgentTicks.TickCatchesUp | packages/runtime/src/Supervisor.ts:98-131 | after a tick that succeeds or has nothing to send, every sampled agent's last heartbeat carries its cursor |
| AgentTicks.HeartbeatEmitter.OnTick | packages/runtime/src/Supervisor.ts:94-131 | the two loops build the batch of moved cursors and record it only after the append |
| Heartbeat.ClampIntervalMs | packages/protocol/src/Heartbeat.ts:81-85 | in range, unchanged if it was, otherwise the nearest bound; any non-finite request becomes the minimum |
| Heartbeat.WatchedMeans | packages/protocol/src/Heartbeat.ts:150-224 | the guard fails at the first poll more than the threshold after the last heartbeat, and until then passes on everything but heartbeats |
| Heartbeat.UnarmedNeverFails | packages/protocol/src/Heartbeat.ts:157-161 | without a first heartbeat it never fails |
| Heartbeat.SteadyBeatsAreSafe | packages/protocol/src/Heartbeat.ts:173-190 | it never fails while arrival gaps stay within the threshold |
| Heartbeat.FiresPromptly | packages/protocol/src/Heartbeat.ts:179-206 | when it fails, the last heartbeat is more than the threshold and at most the threshold plus 1000 ms ago |
| Heartbeat.SilenceIsNoticed | packages/protocol/src/Heartbeat.ts:199-206 | armed and silent for longer than that, it has failed |
| Heartbeat.JitterLimit | packages/protocol/src/Heartbeat.ts:95-107 | client and server on the same requested interval tolerate every delivery within a jitter if and only if the jitter is at most two clamped intervals |
| Heartbeat.HeartbeatGuard.OnItem | packages/protocol/src/Heartbeat.ts:163-168 | a heartbeat sets the arrival time, anything else is passed on |
| Heartbeat.HeartbeatGuard.CheckOnce | packages/protocol/src/Heartbeat.ts:179-190 | one tick of the watchdog |
| Registry.AscendingIsUnique | packages/schema/src/Registry.ts:108-111 | a collection has only one sorted order |
| Registry.SameMapSameDefs | packages/schema/src/Registry.ts:106-114 | registrations build the same map if and only if they hold the same definitions |
| Registry.DigestIgnoresOrder | packages/schema/src/Registry.ts:106-114 | registration orders that build the same map give the same digest |
| Registry.DigestOneDecides | packages/schema/src/Registry.ts:28-31 | short of a hash collision and of bars in kinds, two definitions have the same digest if and only if kind, version (none is the first) and schema agree |
| Registry.BarsCollide | packages/schema/src/Registry.ts:28-31 | with bars in kinds two different definitions can share a digest, whatever the hash |
| Registry.DigestDecides | packages/schema/src/Registry.ts:106-114 | short of a hash collision, digests agree if and only if the definitions' own digests do, as collections |
| Registry.RegisteredKeeps | packages/schema/src/Registry.ts:34-44 | a batch only adds, keeps one definition a kind, and on refusal keeps exactly what came before the refused one |
| Registry.PlainBatch | packages/schema/src/Registry.ts:64-79 | a plain batch is accepted if and only if no kind occurs twice |
| Registry.ForgivingBatch | packages/schema/src/Registry.ts:75-93 | a batch that swallows duplicates is accepted if and only if no kind has two digests |
| Registry.ForgivingTwice | packages/schema/src/Registry.ts:75-93 | registering an accepted batch again changes nothing |
| Registry.EventRegistry.Find | packages/schema/src/Registry.ts:94-102 | finds the definition of a kind if and only if there is one |
| Registry.EventRegistry.Register | packages/schema/src/Registry.ts:64-74 | adds a new kind and drops the memoized digest, refuses a known kind and changes nothing |
| Registry.EventRegistry.RegisterAll | packages/schema/src/Registry.ts:75-93 | the loop stops where the specification of a batch stops, in the same state |
| Registry.EventRegistry.Digest | packages/schema/src/Registry.ts:115-125 | memoized or not, the answer is a fresh computation's |
| Lineage.PushAllKeepsTheLast | apps/web/src/EventLog.ts:39-58 | the log holds the last 500 received events in order |
| Lineage.WalkLineage | apps/web/src/EventLog.ts:74-94 | the walk is a path along first causes without repeats that stops only at the depth, a missing cause, an event without one, or a visited one |
| Lineage.WalkFollowsCauses | apps/web/src/EventLog.ts:39-94 | in terms of the received events: each next entry is the first cause of the one before, and short of the depth and a visited event the walk ends only where there is no cause among the last 500 received |
| Lineage.LineageDescends | apps/web/src/EventLog.ts:84-92 | where causes are smaller every walk strictly descends and its next step is no visited event |
| Lineage.ReceivedLineageDescends | apps/web/src/EventLog.ts:74-94 | a sidebar fed with events that cite smaller ids never meets the cycle guard |
| Lineage.FleetLineageDescends | apps/web/src/EventLog.ts:74-94 | in every run of any number of agents, every walk over whatever part of the log a sidebar received descends and sets no cycle |
| CanvasFold.LastWriterWins | packages/cli/src/commands/folds/canvas.ts:47-70 | per kind and id, the fold holds exactly what was said last |
| CanvasFold.CanvasState.Reduce | packages/cli/src/commands/folds/canvas.ts:47-70 | one event changes the state in place as the fold prescribes |
| CanvasFold.CanvasState.ReduceAll | packages/cli/src/commands/folds/canvas.ts:37-47 | the reduction loop computes the fold |
| Bridge.UpsertFaithful | apps/web/src/RxweaveBridge.tsx:126-134 | scheduling an upsert keeps the meaning if and only if the waiting upsert it replaces is of the same kind or changes nothing |
| Bridge.DeleteFaithful | apps/web/src/RxweaveBridge.tsx:136-141 | the same for a delete that cancels a waiting upsert |
| Bridge.FireFaithful | apps/web/src/RxweaveBridge.tsx:129-132 | a firing timer keeps the meaning |
| Bridge.StepPairs | apps/web/src/RxweaveBridge.tsx:126-141 | timers still held and waiting entries always correspond one to one |
| Bridge.UserCanvas | apps/web/src/RxweaveBridge.tsx:336-351 | the events the user's changes stand for fold to the canvas the changes leave, type by type and id by id: shapes among the shapes, bindings among the bindings, no others |
| Bridge.DebouncePreservesMeaning | apps/web/src/RxweaveBridge.tsx:97-141 | where no id is used for a shape and a binding, folding emitted and then waiting events gives the canvas as the user's changes left it, after any run |
| Bridge.FireSends | apps/web/src/RxweaveBridge.tsx:129-132 | a timer still held sends its upsert and frees its id, a cleared one does nothing |
| Bridge.PauseSendsAll | apps/web/src/RxweaveBridge.tsx:126-134 | when the user pauses and the timers held fire, nothing waits any more |
| Bridge.DebouncedBridge.OnUpsert | apps/web/src/RxweaveBridge.tsx:126-134 | cancels the waiting timer and waits anew |
| Bridge.DebouncedBridge.OnDelete | apps/web/src/RxweaveBridge.tsx:136-141 | cancels what waits and emits the delete |
| Bridge.DebouncedBridge.Cleanup | apps/web/src/RxweaveBridge.tsx:309-313 | in whatever order it visits the entries, nothing waiting is lost, nothing waits and no timer is left afterwards, and what was emitted means what the user did if it did so with what waited |
| Bridge.DebouncedBridge.OnStoreChange | apps/web/src/RxweaveBridge.tsx:229-253 | removals, additions and updates are taken in this order, so that of each shape and binding an update counts, else an addition, else a removal; other records are ignored |

## Left out

- Supervisor.SavedIsNeverAhead: assumes that the agent is handed nothing from behind a gap, because it is never told that an event slid past it; `AgentMayRunAhead` shows the failure, `KeepingUpIsGapless` a condition that rules it out.
- Repeats.CompletedPastSaved: assumes the same; `MayCompleteLater` shows the failure. It also takes a flush as one step; the timer fiber reads the pending cursor and resets the count in separate steps.
- FileStore.TailReadsEverything: assumes polls that meet new ids and no own append ahead of unread bytes; `RepeatsDependOnPolls` and `AppendSyncsExactly` say exactly what each assumption is worth.
- FileClients.FileSubscriberMisses: polls and appends are whole steps there, their halves are in `FileStore.PollBetweenWriteAndCommit` and its neighbours; a cursor past the snapshot's last id is not honoured, as in `MemoryStore.FutureCursorIsNotHonoured`.
- AgentTicks.RunKeeps: an append that reports a failure is taken not to have reached the log.
- Heartbeat.JitterLimit: polls come exactly 1000 ms apart and heartbeats exactly one interval apart, as the schedules ask for.
- FileStore.Store.CommitHalf: the batch is already minted, as in `MemoryStore.Store.MintBatch`; what a subscriber's window does with published events is the memory store's.
- The file store's `query`, `queryAfter` and `latestCursor` are the memory store's, line for line.
- Fractional timestamps, as a foreign line may carry: the stores' own clocks give whole milliseconds.
- The retry budget of ten and the backoff delays: a failure is transient or permanent, as packages/store-cloud/src/Retry.ts decides.
- `getById`, the registry's `all` and `wire`, and pushing definitions to a server: simple lookups and set inclusions.
- HTTP, RPC, NDJSON framing, authentication, file synchronisation to disk, and the cursor file's own format: a plain cursor per agent stands for it.
- The state of agents that reduce instead of handle: the model sees their emits only.
- A null payload handed to the canvas reduction, which would throw, and prototype keys of its plain objects.
- The order in which the bridge's asynchronous appends reach the server: the emitted order is the call order.
- Assembling the bytes of a poll from stream chunks: the bytes are taken as one sequence.
- Several processes appending to one file while also tailing it, beyond the foreign writes of `FileStore.RunSyncs`.

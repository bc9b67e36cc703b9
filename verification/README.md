# Verification model of the tracing gateway

A Dafny model of the stateful algorithms inside the gateway, and proofs that each agrees with a
simple reference: on every byte stream and every way of chunking it, on every run, and on every
interleaving. `dafny verify dfyconfig.toml` checks everything.

## What is modelled

* **The SSE engine** (`Utf8`, `Frames`, `SseText`, `Json`, `Engine`, `ToolCalls`, `Totals`,
  `JsonReads`). A response arrives in arbitrary chunks, is cut at the last blank line, and is folded
  frame by frame into an accumulator. `Engine.DrainEqualsWholeBody` is the central result: the
  incremental path gives exactly the outcome of one pass over the whole body, for every chunking,
  with a concrete lossy UTF-8 decoder. The decoder replaces maximal ill-formed subparts by U+FFFD,
  and its seam law (`Utf8.DecodeAtSeam`) is proved rather than assumed. `SseAccum` is a class whose
  methods refine the fold. `ToolCalls` gives the meaning of the chat chunk table and of the one-slot
  Anthropic assembler up to whole bodies; `Totals` does the same for text, usage, error, unreadable
  frames and finished items. `SseText` reads back streams that were written down line by line, and
  `JsonReads` says on the fields of an event what is read from it.
* **The relay** (`Relay`, `RelayScript`, `RelayCapture`). The body pump of one request as a loop
  over events: chunk with the fate of its write, end, read error, disconnect seen by the probe, end
  of the drain window. Whatever path it takes, what is recorded is the outcome of one pass over all
  bytes received. `RelayScript` tells from the script alone what the client was sent and why the
  pump stopped; `RelayCapture` says exactly when the bounded raw capture is a prefix of the stream.
* **The prefix stitcher** (`Stitcher`, `StitcherRuns`, `StitcherSafety`, `StitcherSessions`). The
  class updates the table in place. The amortised sweep is proved observationally equal to purging
  on every request, and over every run a session id stands for one growing conversation of one
  scope, which keeps it.
* **The export pool** (`ExportPool`, `ExportRuns`, `ExportCounters`). Submitters, batcher, flush
  tasks and reload as a transition system whose events are single accesses to shared state; an
  inductive invariant gives conservation of records, order, permit arithmetic under hot resizing,
  and the end of a shutdown; the counters are read off the run.
* **The WebSocket tap** (`WsFrames`, `WsTurns`): frame parsing (sections 5.2 and 5.3 of RFC 6455)
  and the turn state.
* **Timestamps** (`Calendar`, `Timestamp`): the days-to-civil algorithm against the Gregorian
  calendar, and the printed form (section 5.6 of RFC 3339).
* **Supporting pieces**: the two-budget record store (`Store`), the legacy user-id matcher
  (`LegacyId`), and the capture cap (`Capture`).

Specifications of methods are functions on values (`...Of`, `...All`, `Window`, `Meaning`); what the
repository promises is then proved about these functions or about runs of them.

## Where the code differs from what is said about it

* A stitcher TTL that is raised by a reload can revive a chain that has expired but has not been swept
  yet, so the lazy stitcher then differs from the eager one. `StitcherRuns.AgreementIffTtlNeverGrows`
  gives the exact condition on the two TTLs, with the diverging run built inside the proof.
* A session whose TTL has run out can then come back. `StitcherSafety.ExpiredStaysLostIff`
  gives the same exact condition: in no run with one reload iff the reload does not raise the TTL.
* A flush task that panics after it has booked its batch as failed (its error report writes to
  stderr, which may fail) is booked a second time while unwinding. `ExportRuns.DoubleBooking` reaches
  such a state; `ExportRuns.CountersExactIff` says the counters are exact iff no such panic happened.
* A capture cap that grows while a response is drained can make the raw capture skip bytes
  (`RelayCapture.GrowingCapLeavesGap`). `RelayCapture.CapturePrefixIffCapsFall` gives the exact
  condition on the caps (no drained chunk meets a larger cap than a chunk drained before it), and
  `RelayCapture.CapturePrefixIff` the exact condition for chunks of known lengths.

## Model

| member | source | states |
|---|---|---|
| Utf8.DecodeAtSeam | src/engine.rs:290-307 | decoding commutes with cutting the stream behind an ASCII byte or before a non-continuation byte, for arbitrary bytes |
| Utf8.StrictIsLossy | src/engine.rs:19-32 | the borrowed fast path for valid UTF-8 and the lossy fallback give the same text |
| Utf8.ValidIffEncoded | src/engine.rs:22-26 | the strict decoder accepts exactly the encodings of texts, each with that text |
| Utf8.LossyStep | src/engine.rs:26 | on any bytes a whole character at the front is decoded, and otherwise the maximal subpart at the front (the longest start of a character, or one byte) gives a single U+FFFD |
| SseText.WrittenReadsBack | src/engine.rs:36-65 | any stream written from blocks of data lines and other lines, with either line ending, with or without the space, reads back as the payloads of its blocks joined by newlines, the unfinished last block included |
| SseText.OtherLineIgnored | src/engine.rs:48-50 | a line that is neither empty nor begins with `data:` may be put in anywhere without changing a frame |
| SseText.FinalNewline | src/engine.rs:60-63 | a newline at the end of a text makes no difference |
| Frames.RemainingIsBlocks | src/engine.rs:36-65 | the line-by-line pending-frame loop yields, from any state, the pending block completed and then one frame per later block with data |
| Frames.CollectFrames | src/engine.rs:36-65 | the frames of a text are those of its blocks between blank lines |
| Frames.CollectLines | src/engine.rs:39-64 | the loop with its pending frame computes the block reference |
| Frames.SseDataFrames | src/engine.rs:19-32 | frames of a byte body are the frames of its lossy decoding, on both paths |
| Frames.LastFrameBoundary | src/engine.rs:324-338 | the end of the last blank-line delimiter of either form: a boundary, and none ends later; none means no boundary at all |
| Frames.BoundaryBytes | src/engine.rs:334 | a boundary is exactly where newline, newline or newline, return, newline have just gone by |
| Frames.DecodedBoundary | src/engine.rs:293-302 | a prefix cut at a boundary decodes to a text that ends in a blank line |
| Frames.FramesAtSettledCut | src/engine.rs:290-307 | cutting a body behind a blank line cuts its frame list in two, whatever bytes follow |
| Engine.AddChunkAt | src/engine.rs:188-216 | find-or-append of a chunk's index is a single in-place update |
| Engine.SseAccum.TakeChunk | src/engine.rs:187-215 | one chunk updates or appends exactly the entry of its index |
| Engine.SseAccum.TakeChunks | src/engine.rs:185-217 | all elements of a chunk array, in order |
| Engine.SseAccum.Apply | src/engine.rs:123-219 | each action changes the accumulator as its specification says and nothing else |
| Engine.SseAccum.ApplySseRules | src/engine.rs:113-223 | every matching rule of the table is applied, in table order |
| Engine.SseAccum.FeedFrame | src/engine.rs:237-264 | furniture is skipped, a parse failure is counted, otherwise marker, rules, then usage |
| Engine.SseAccum.FeedAll | src/engine.rs:229-231 | frames are folded in order |
| Engine.SseAccum.FinishAccum | src/engine.rs:268-288 | the outcome: completed calls, the pending one, then the sorted chunk table where the protocol has one |
| Engine.StreamResponse | src/engine.rs:227-233 | the whole-body pass computes the reference outcome |
| Engine.DrainFeed | src/engine.rs:297-307 | one feed parses up to the last boundary and hands back the rest |
| Engine.DrainFinish | src/engine.rs:312-319 | the tail is parsed as it stands and the accumulator finished |
| Engine.FeedConcat | src/engine.rs:229-231 | feeding two frame lists is feeding their concatenation |
| Engine.NoBoundaryBehindLast | src/engine.rs:299-303 | the bytes retained behind the last boundary hold no complete boundary |
| Engine.FeedTracks | src/engine.rs:290-307 | each feed keeps: consumed bytes plus tail equal everything received, the consumed prefix ends at a boundary and is folded, the tail holds no boundary |
| Engine.DrainTracks | src/engine.rs:290-307 | the same after any list of chunks |
| Engine.DrainEqualsWholeBody | src/engine.rs:309-319 | for every chunking, feeding then finishing equals the whole-body pass on text, usage, tools, error and frame errors |
| ToolCalls.TableIsReference | src/engine.rs:184-217 | after any chunk sequence the table has one entry per index seen, with the first non-empty name and the joined fragments of that index |
| ToolCalls.ChatTableIsReference | src/engine.rs:277-280 | the final table has strictly ascending indices, each with its reference call, and misses none |
| ToolCalls.ChatOrderIrrelevant | src/engine.rs:184-217 | reorderings that keep the order within each index give the same final table |
| ToolCalls.ChatFold | crates/atg-protocol/src/openai/chat.rs:35-49 | under the chat table a fold over frames is a fold over their chunks and touches no other tool state |
| ToolCalls.ChatBodyTools | src/engine.rs:184-288 | the tool calls recorded for a chat body are exactly the reference calls of its chunks in index order |
| ToolCalls.AssembledIsReference | src/engine.rs:129-168 | the one-slot assembler yields one call per block opened, with the fragments of its index up to its close, the next open or the end |
| ToolCalls.AnthropicFold | crates/atg-protocol/src/anthropic/mod.rs:37-62 | under the Anthropic table a fold over frames is the assembler run over their block events |
| ToolCalls.AnthropicBodyTools | src/engine.rs:129-276 | the tool calls recorded for an Anthropic body are exactly one per tool block opened, in opening order |
| Totals.FrameTotals | src/engine.rs:237-264 | one frame appends its matched text, replaces the error only by a marker, overwrites only the usage fields it reports, and counts itself only when it is no JSON |
| Totals.TextAndErrors | src/engine.rs:123-128 | over any frames: the text is all matched text in order, the error is the last marker, unreadable frames are counted |
| Totals.UsageFields | crates/atg-model/src/lib.rs:91-112 | every usage field is that of the latest frame that reports the field; usage is absent iff no frame reports any |
| Totals.BodyTotals | src/engine.rs:227-264 | the same of the outcome recorded for a whole body |
| Totals.ResponsesBodyTools | crates/atg-protocol/src/openai/responses.rs:49-63 | the tool calls of a responses body are the call items its frames finish, in arrival order |
| JsonReads.ChunkReads | src/engine.rs:187-215 | a chat chunk is its `index`, `function.name` and `function.arguments` |
| JsonReads.ChunkArrayReads | src/engine.rs:185-186 | the chunks of an event are the elements of `choices[0].delta.tool_calls` |
| JsonReads.DoneCallReads | src/engine.rs:170-182 | a finished call is its `name` and its `arguments`, or its `input` where it has no arguments |
| JsonReads.AnthropicEventReads | src/engine.rs:129-168 | which Anthropic events open, extend and close a tool block, by their fields |
| JsonReads.RuleMatchReads | src/engine.rs:93-110 | when a rule matches an event: trigger and type gates, by the fields of the event |
| JsonReads.ChatTextReads | crates/atg-protocol/src/openai/chat.rs:36-41 | the text of a chat event is `choices[0].delta.content` (or under the name 0 when `choices` is an object) |
| JsonReads.AnthropicTextReads | crates/atg-protocol/src/anthropic/mod.rs:38-43 | the text of an Anthropic event is the `delta.text` of a text delta |
| JsonReads.ResponsesTextReads | crates/atg-protocol/src/openai/responses.rs:50-55 | the text of a responses event is the `delta` of an output-text delta |
| JsonReads.ErrorReads | src/engine.rs:342-361 | which events mark a turn as failed, protocol by protocol, and what is kept of them |
| JsonReads.ChatUsageReads | crates/atg-protocol/src/openai/chat.rs:50-53 | any event with a `usage` that is not null reports it |
| JsonReads.ResponsesUsageReads | crates/atg-protocol/src/openai/responses.rs:64-67 | `response.completed` reports `response.usage` |
| JsonReads.AnthropicUsageReads | crates/atg-protocol/src/anthropic/mod.rs:64-73 | `message_start` reports `message.usage`, `message_delta` reports `usage` |
| JsonReads.FurnitureReads | src/engine.rs:242-245 | the frames skipped are exactly white space, and white space around `[DONE]` |
| JsonReads.WhiteIs | src/engine.rs:242 | white space is the 25 Unicode characters that `trim` removes |
| JsonReads.ResolveSteps | crates/atg-protocol/src/lib.rs:369-383 | a path step by name leads into an object, and a miss or another kind reads as null |
| JsonReads.ResolveIndex | crates/atg-protocol/src/lib.rs:373-378 | a decimal path step, with or without a plus sign, leads to that array element |
| JsonReads.ResolveNotANumber | crates/atg-protocol/src/lib.rs:373-378 | any other step into an array reads as null |
| Relay.Ctx.BeginDrain | src/lib.rs:442-453 | the accumulator is seeded once, with everything captured so far |
| Relay.Ctx.DrainCapture | src/lib.rs:460-466 | raw bytes up to the cap, the rest counted |
| Relay.Ctx.Deliver | src/lib.rs:736-748 | a chunk for a live client is captured and forwarded, or starts the drain |
| Relay.Ctx.DrainChunk | src/lib.rs:749-758 | a chunk after the death is captured under the cap and fed to the accumulator |
| Relay.Ctx.Turn | src/lib.rs:661-764 | one turn of the pump loop moves the request as specified and leaves the loop exactly when it stops |
| Relay.Ctx.Pump | src/lib.rs:641-764 | the pump from the response head on equals the run of its event script |
| Relay.Ctx.Record | src/lib.rs:1737-1753 | the drained accumulator is finished if there is one, else the capture is parsed in one pass |
| Relay.StepAccounted | src/lib.rs:661-764 | every event keeps: each byte received is either still captured or was handed to the accumulator once |
| Relay.RelayRecordsWholeStream | src/lib.rs:1737-1753 | on every path the recorded outcome is that of one pass over all upstream bytes received |
| Relay.CaptureConserves | src/lib.rs:460-466 | captured length plus overflow equals bytes received, under any caps |
| Relay.ReceivedIsOffered | src/lib.rs:656-764 | a running pump has taken every chunk offered; a stopped one those before the stop |
| Relay.ForwardedUntilDeath | src/lib.rs:736-758 | a live client has been sent everything received, and nothing is forwarded after its death |
| RelayScript.ServedUntilLastLive | src/lib.rs:661-764 | with the head delivered, the client is sent exactly the chunks before the first death or end in the script, and is taken for dead iff that was a death |
| RelayScript.NothingAfterFailedHead | src/lib.rs:641-654 | after a failed head write the client is dead and is sent nothing, whatever happens |
| RelayScript.NothingTaken | src/lib.rs:650-661 | without a body, or after a failed head without draining, nothing is taken from the upstream |
| RelayScript.FlagsTellTheScript | src/lib.rs:671-732 | the end was seen, the upstream failed, or the drain window elapsed iff a running pump met that event |
| RelayScript.DrainedCapture | src/lib.rs:460-466 | a drained chunk fills the capture up to the cap and not beyond, from its front |
| RelayScript.LiveCapture | src/lib.rs:736-737 | a live client's chunk is captured whole |
| RelayCapture.CaptureIsPrefix | src/lib.rs:455-466 | the capture is a prefix of the stream on every run in which no drained chunk finds room after bytes were refused |
| RelayCapture.CapturePrefixIff | src/lib.rs:460-466 | for chunks of given lengths, fates and caps: a prefix whatever the chunks hold iff none finds room after bytes were refused |
| RelayCapture.CapturePrefixIffCapsFall | src/lib.rs:460-466 | for given fates and caps: a prefix whatever arrives iff no drained chunk meets a larger cap than one drained before it |
| RelayCapture.GrowingCapLeavesGap | src/lib.rs:461-464 | a cap that grows between two drained chunks makes the capture skip a byte |
| Stitcher.PrefixStitcher.WithLimits | src/trace/prefix.rs:93-108 | limits clamped to at least one, everything else empty |
| Stitcher.PrefixStitcher.SetLimits | src/trace/prefix.rs:122-125 | a reload changes the limits alone |
| Stitcher.PrefixStitcher.EvictToFit | src/trace/prefix.rs:222-232 | the loop ends below the capacity, evicts no chain younger than one it keeps, and counts each |
| Stitcher.PrefixStitcher.Expire | src/trace/prefix.rs:181-205 | the sweep when due, then the removal of an expired chain under the looked-up key |
| Stitcher.PrefixStitcher.OpenChain | src/trace/prefix.rs:219-242 | room is made and a chain under a fresh id inserted |
| Stitcher.PrefixStitcher.NewSessionId | src/trace/prefix.rs:247-256 | an id carrying the next nonce |
| Stitcher.PrefixStitcher.Assign | src/trace/prefix.rs:173-243 | one request: extension, breakpoint or new chain, with the whole new state |
| StitcherRuns.RunExists | src/trace/prefix.rs:173-243 | every request sequence has a run of either version |
| StitcherRuns.TrimsAgree | src/trace/prefix.rs:222-232 | eviction from a table with expired chains and from one without them leaves the same live chains |
| StitcherRuns.ExpiryAligns | src/trace/prefix.rs:186-205 | after the TTL work of one request the two tables agree on live chains and on the requested key |
| StitcherRuns.StepAgrees | src/trace/prefix.rs:12-19 | one request of both versions from agreeing tables gives the same answer and agreeing tables |
| StitcherRuns.LazyEqualsEager | src/trace/prefix.rs:12-19 | on every request sequence with increasing time, and reloads that do not raise the TTL, lazy and eager stitchers answer alike |
| StitcherRuns.AgreementIffTtlNeverGrows | src/trace/prefix.rs:122-130 | all runs with one reload agree iff the new TTL does not exceed the old |
| StitcherSafety.RunSound | src/trace/prefix.rs:196-243 | ids in the table were issued and no two chains share one |
| StitcherSafety.SameSessionSameConversation | src/trace/prefix.rs:196-217 | two requests with one id have the same scope and the same first two messages, the earlier history is a prefix of the later, and consecutive uses are less than the TTL apart |
| StitcherSafety.KeyIsScopeAndHead | src/trace/prefix.rs:196 | two requests are filed together iff they have the same scope and the same first two messages |
| StitcherSessions.OthersNeverShare | src/trace/prefix.rs:196-256 | requests of different scopes or heads are never given one session |
| StitcherSessions.ExtensionKeepsSession | src/trace/prefix.rs:206-218 | the next request of a scope and head, within the TTL and with nothing evicted, keeps the session iff it extends the messages, and is a breakpoint otherwise |
| StitcherSessions.ExpiredChainsAreSwept | src/trace/prefix.rs:182-195 | no chain lies in the table for the TTL and 30 seconds after its last use |
| StitcherSafety.LimitsAreLatest | src/trace/prefix.rs:122-130 | the capacity and the TTL in force are those of the latest reload, at least one |
| StitcherSafety.RequestCounts | src/trace/prefix.rs:186-231 | what a request adds to each counter: the expired chains when a sweep is due, the chains over capacity when one is opened |
| StitcherSafety.BreakpointEndsSession | src/trace/prefix.rs:213-217 | the session left at a breakpoint is never returned again |
| StitcherSafety.LostSessionNeverReturns | src/trace/prefix.rs:245-256 | an id once issued and no longer held is never returned again |
| StitcherSafety.ExpiredSessionNeverReturns | src/trace/prefix.rs:197-205 | a session whose TTL has run out by some request is not returned by it or later, swept or still in the table, while no later reload raises the TTL |
| StitcherSafety.ExpiredStaysLostIff | src/trace/prefix.rs:122-130 | expired sessions stay lost in all runs with one reload iff the new TTL does not exceed the old |
| StitcherSafety.BreakpointExactly | src/trace/prefix.rs:200-217 | a breakpoint is reported exactly when a live chain of the same head is not a prefix of the request |
| StitcherSafety.RunBooked | src/trace/prefix.rs:181-242 | inserts equal entries plus expired plus evicted plus lookup removals, and sweeps times the interval do not exceed the last sweep time |
| StitcherSafety.TableBounded | src/trace/prefix.rs:219-232 | without reloads the table never exceeds the capacity |
| StitcherSafety.ShrunkCapacityHolds | src/trace/prefix.rs:219-232 | the next request that opens a chain brings the table within a shrunk capacity |
| ExportPool.KeepsPermits | src/trace/export.rs:157-188 | every event keeps the width equation of the resizable semaphore and at least one permit |
| ExportPool.KeepsPlacedOnce | src/trace/export.rs:288-356 | every event leaves each accepted record in exactly one place |
| ExportPool.KeepsGauged | src/trace/export.rs:384-430 | the in-flight gauge counts the flush tasks that have not lowered it |
| ExportPool.KeepsOrdered | src/trace/export.rs:289-351 | the batches shipped or dropped in the batcher's order, the one in hand, the buffer and the queue together are the order of entry |
| ExportPool.KeepsInv | src/trace/export.rs:269-444 | the whole invariant is kept by every event of every actor |
| ExportRuns.RecordsConserved | src/trace/export.rs:193-443 | on every interleaving each accepted record is sending, queued, buffered, in hand, in flight or counted, once; the counters add up to the records counted |
| ExportRuns.DrainedIsCounted | src/trace/export.rs:335-356 | when the batcher has ended, everything accepted is counted, nothing is in flight, and the batches shipped or dropped, in the batcher's order, are all that entered the queue in its order |
| ExportRuns.CountersExactIff | src/trace/export.rs:425-434 | exported plus failed plus dropped equals accepted iff no task panicked after booking its batch |
| ExportCounters.CountersTellTheRun | src/trace/export.rs:425-520 | every counter read off the run: exported is the size of the batches whose flush succeeded, failed of those whose flush failed or was booked while unwinding, dropped the offers to a full queue and the batches without a target |
| ExportCounters.HistoryTellsTheRun | src/trace/export.rs:193-206 | what was accepted, what entered the queue and what became of each batch, read off the run; a batch goes unshipped exactly when no target is loaded |
| ExportCounters.LatestReloadRules | src/trace/export.rs:157-188 | the target and the width in force are those of the latest reload, the width at least one |
| ExportRuns.DoubleBooking | src/trace/export.rs:496-517 | one record, one failed flush, a panic while reporting it: failed reads two |
| ExportRuns.ExportOrder | src/trace/export.rs:282-352 | the batches dispatched and those dropped for no target, in batcher order, then the one in hand, the buffer and the queue, are the queue order; each batch has 1 to 32 records, flush tasks carry them as dispatched, and the queue stays within 1024 |
| ExportRuns.WidthUnderReloads | src/trace/export.rs:157-188 | under any reloads: the width equation, at least one permit, gauge at most held permits, and the configured width once nothing is outstanding |
| ExportRuns.ForgetsWhatIsFree | src/trace/export.rs:305-307 | after the batcher's pass a shrink has taken every free permit or all it was owed |
| ExportRuns.ParkedBatcherIsFreed | src/trace/export.rs:371-399 | a parked batcher without a permit has a flush in flight, and on every continuation (success, failure, panic, submits, reloads) the flush tasks take boundedly many steps and, when they can take no more, a permit is there |
| ExportRuns.ShutdownProgress | src/trace/export.rs:335-356 | after the close every step of batcher or tasks uses up work |
| ExportRuns.ShutdownNeverStuck | src/trace/export.rs:335-356 | and one is possible until the batcher is done |
| ExportRuns.ShutdownEnds | src/trace/export.rs:335-356 | so, among any reloads, their steps are bounded, and runs can only end in the drained state |
| Calendar.YearBounds | src/trace/export.rs:1092-1094 | the year-of-era formula finds the year whose days contain the day of era |
| Calendar.EpochDay | src/trace/export.rs:1088 | day 0 is 1970-01-01 |
| Calendar.NextDayFollows | src/trace/export.rs:1089-1098 | every day is a valid date and day n + 1 is the calendar successor of day n, for every integer n |
| Timestamp.DayNumberOfCivil | src/trace/export.rs:1089-1098 | counting days from 1970-01-01 through the calendar inverts the algorithm |
| Timestamp.DatesAscend | src/trace/export.rs:1089-1098 | later days are later dates |
| Timestamp.TimestampRoundTrip | src/trace/export.rs:1083-1105 | the printed form of every u64 reads back as the same nanosecond count |
| Timestamp.TimestampOrder | src/trace/export.rs:1104 | string order of printed timestamps is numeric order |
| Timestamp.PrintedForm | src/trace/export.rs:1099-1104 | the printed form spelled out, with the calendar date, hour, minute, second and nanosecond that make up the count |
| Timestamp.PrintedPunctuation | src/trace/export.rs:1104 | 30 characters with the punctuation of the form at its places |
| WsFrames.UnmaskInPlace | crates/atg-protocol/src/openai/live.rs:196-203 | the in-place loop applies the exclusive or with the repeated key to every byte |
| WsFrames.MaskingUndoesItself | crates/atg-protocol/src/openai/live.rs:200-202 | masking twice under one key is the identity |
| WsFrames.XorIsExclusiveOr | crates/atg-protocol/src/openai/live.rs:201 | a byte is the computed one iff each of its bits is set iff exactly one of the two bits is |
| WsFrames.OversizedIsRefused | crates/atg-protocol/src/openai/live.rs:179-186 | a frame that declares more than the cap is refused on its header alone and clears the buffer |
| WsFrames.OverflowIsRefused | crates/atg-protocol/src/openai/live.rs:170-178 | so is, under any cap, a length with which the frame would pass 64 bits |
| WsFrames.WsFrameParser.Push | crates/atg-protocol/src/openai/live.rs:147-210 | a push returns the text payloads of all complete frames and keeps the rest, or clears the buffer on a refusal |
| WsFrames.ParseInTwo | crates/atg-protocol/src/openai/live.rs:147-210 | parsing in two goes is parsing at once unless the first go refuses a frame |
| WsFrames.ChunkingIrrelevant | crates/atg-protocol/src/openai/live.rs:147-210 | for any chunking of an unrefused stream the concatenated results and the residue are those of one push |
| WsFrames.FramingRoundTrip | crates/atg-protocol/src/openai/live.rs:147-210 | any frames, keys, length forms, chunking and wire bytes that are the bitwise exclusive or of payload and key: exactly the payloads of the opcode-1 frames in order, and a residue that is a strict prefix of the next frame |
| WsTurns.WsTurnState.ApplyClientFrame | crates/atg-protocol/src/openai/live.rs:333-356 | a create opens a turn, any other client frame changes nothing |
| WsTurns.WsTurnState.ApplyServerFrame | crates/atg-protocol/src/openai/live.rs:361-387 | a server frame is appended verbatim and adds a tool call, a delta, or closes the turn |
| WsTurns.WsTurnState.TakeRecord | crates/atg-protocol/src/openai/live.rs:389-434 | the record is the turn and the state is left empty |
| WsTurns.StateIsTurn | crates/atg-protocol/src/openai/live.rs:329-387 | after any interleaving the state is the turn read off the history alone |
| WsTurns.RecordHoldsItsTurn | crates/atg-protocol/src/openai/live.rs:378-434 | each record holds exactly what came since the last boundary and the latest create since the last done |
| JsonReads.LiveServerReads | crates/atg-protocol/src/openai/live.rs:368-385 | what a server event means, by its type and fields |
| JsonReads.LiveClientReads | crates/atg-protocol/src/openai/live.rs:333-342 | the only client event with a meaning is `response.create` |
| JsonReads.LiveOpeningReads | crates/atg-protocol/src/openai/live.rs:343-354 | a turn opens with the create frame verbatim, its session, its model and its user |
| Store.TraceStore.constructor | src/trace/store.rs:42-54 | an empty store with caps clamped to at least one |
| Store.TraceStore.SetCaps | src/trace/store.rs:58-64 | a reload changes the caps alone, clamped |
| Store.TraceStore.Push | src/trace/store.rs:66-96 | the store becomes the window of its contents and the new record; the drop counter and the exact byte estimate follow |
| Store.TraceStore.SnapshotBounded | src/trace/store.rs:102-117 | the newest `limit` of what is left after skipping `offset` newer ones, all of it for limit 0 |
| Store.WindowIsLongestSuffix | src/trace/store.rs:79-90 | the window is the one suffix that meets both budgets and cannot be extended, or the newest record alone |
| Store.HoldsTheWindow | src/trace/store.rs:79-92 | while the caps stand, any pushes leave the window of everything held and pushed |
| Store.PushedIsHeldPlusDropped | src/trace/store.rs:84-92 | under any pushes and reloads, dropped plus held equals pushed and the held are the newest |
| Store.PagesRestoreTheStore | src/trace/store.rs:98-117 | pages at offsets 0, k, 2k, … until one is empty put together give the whole store |
| Store.PageIsSlice | src/trace/store.rs:102-117 | a page is a slice counted from the newest end, and limit 0 takes all that is left |
| Store.EstimateCountsTexts | src/trace/store.rs:134-142 | the budget counts the request, the response, the input and the output, each byte once, and nothing else |
| LegacyId.SplitIff | crates/atg-protocol/src/session.rs:75-85 | a split takes exactly n class characters and gives back its input, and fails iff it cannot |
| LegacyId.PartsIff | crates/atg-protocol/src/session.rs:45-66 | the matcher accepts exactly the strings of the legacy shape and reads off the lowercase session and the account, none when empty |
| LegacyId.WrittenOnce | crates/atg-protocol/src/session.rs:45-66 | no string has the legacy shape in two ways |
| LegacyId.ClassIsAlphabet | crates/atg-protocol/src/session.rs:73-78 | the character class is the hex digits of either case, and the dash on request |
| LegacyId.LowerAt | crates/atg-protocol/src/session.rs:65 | capital letters come out small and everything else as it is |
| Capture.CaptureCap.constructor | src/trace/capture.rs:31-35 | a cap of at least one |
| Capture.CaptureCap.SetMax | src/trace/capture.rs:38-40 | a reload clamps to at least one |
| Capture.CaptureCap.Bound | src/trace/capture.rs:52-69 | the back-up loop ends at the last character boundary at or below the cap |
| Capture.CutSplitsTheText | src/trace/capture.rs:57-62 | on arbitrary bytes the kept text is the start of the whole lossy text |
| Capture.ValidTextIsCutBetweenCharacters | src/trace/capture.rs:52-69 | valid text over the cap keeps the longest prefix of whole characters that fits, with the true original and kept lengths; within the cap it is unchanged |
| Capture.MarkerTellsLengths | src/trace/capture.rs:63-67 | two markers are alike only if both lengths are |
| Capture.MarkerSpelled | src/trace/capture.rs:63-67 | the marker says first the original length and then what was kept, in decimal |

## Left out

* The JSON parser and printer, the token reader and the end-user lookup are function fields of the
  protocol (`parse`, `render`, `readUsage`, `endUser`): every theorem holds for any choice of them.
* Counters and the session nonce are unbounded integers; their u32 and u64 wrap-around is not modelled.
* Hashes are injective: a fingerprint is the message itself, a session id its seed and nonce. Salts
  and hex encoding are left out.
* The stitcher's lock and its metering are left out: requests are taken in lock order. Strictly
  increasing request times are assumed where the two versions are compared, since ties in the eviction
  order depend on the hash map, and where expiry is shown to be final.
* ExportPool: the pool is a transition system on values, not a class, because its actors interleave.
  A reload is one event. The HTTP client, the request body, and a queue whose receiver is gone before
  the close are left out.
* Time is a free choice of events: ticks, early flushes, the end of the drain window. The length of
  the drain window is not claimed; after a failed head write there is no deadline at all.
* Store.TraceStore.Push: requires that the sizes of the held records and the new one add up within a
  usize, as they are in memory together; so the saturating sums never saturate.
* Relay: sockets, headers, the terminating write, status and error texts; the truncation marker that
  `logging` appends to the raw response after a drain.
* WsFrames.ChunkingIrrelevant: says nothing about streams in which a frame is refused by the cap,
  since a refusal clears the buffer and what follows then depends on the chunking.
* LegacyId: the JSON envelope and object forms of the user id are not modelled.
* Engine: framing is the code's own and is not compared with section 9.2 of the WHATWG HTML standard,
  from which it departs in four ways: a lone CR does not end a line, a last block without a blank line
  still yields a frame, a leading byte-order mark is not stripped, and a line `data` without a colon
  is not a data field.
* Configuration, harness attribution, usage spellings, OTLP attribute layout, metrics rendering,
  non-streaming bodies and path detection are not modelled.

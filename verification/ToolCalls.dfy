/**
 Tool-call assembly over whole streams. The engine folds frames into an accumulator; here each of
 the two chunked protocols is compared with a reference that looks at the whole stream at once.
 */
module ToolCalls {
  import opened Prelude
  import opened Utf8
  import opened Frames
  import opened Json
  import opened Engine

  function Parsed(p: Protocol, data: string): Option<Value> {
    if IsFurniture(data) then None else p.parse(data)
  }

  // ---------------------------------------------------------------------------------------------
  // Chat completions: chunks addressed by index

  const CHAT_RULES := [
    SseRule("*", None, None, Text(["choices", "0", "delta", "content"])),
    SseRule("*", None, None, ToolChunk)
  ]

  predicate IsChat(p: Protocol) {
    p.rules == CHAT_RULES && p.strategy.ChunkedToolCalls?
  }

  function FrameChunks(p: Protocol, data: string): seq<Chunk> {
    match Parsed(p, data) case None => [] case Some(v) => ChunksOf(ChunkArray(v))
  }

  /** Every chunk of the stream, in arrival order. */
  function StreamChunks(p: Protocol, frames: seq<string>): seq<Chunk> {
    if frames == [] then []
    else StreamChunks(p, frames[..|frames| - 1]) + FrameChunks(p, frames[|frames| - 1])
  }

  function ForIndex(chunks: seq<Chunk>, i: nat): seq<Chunk> {
    if chunks == [] then []
    else
      var last := chunks[|chunks| - 1];
      ForIndex(chunks[..|chunks| - 1], i) + (if last.index == i then [last] else [])
  }

  function FirstName(chunks: seq<Chunk>): string {
    if chunks == [] then ""
    else if chunks[0].name.Some? && chunks[0].name.value != "" then chunks[0].name.value
    else FirstName(chunks[1..])
  }

  function Fragments(chunks: seq<Chunk>): string {
    if chunks == [] then ""
    else (if chunks[0].fragment.Some? then chunks[0].fragment.value else "") + Fragments(chunks[1..])
  }

  /** The reference call of one index: first non-empty name, fragments joined in order. */
  function CallFor(chunks: seq<Chunk>, i: nat): ToolCall {
    ToolCall(FirstName(ForIndex(chunks, i)), Fragments(ForIndex(chunks, i)))
  }

  predicate Ascending(entries: seq<Entry>) {
    forall i, j | 0 <= i < j < |entries| :: entries[i].index < entries[j].index
  }

  predicate Distinct(entries: seq<Entry>) {
    forall i, j | 0 <= i < j < |entries| :: entries[i].index != entries[j].index
  }

  function Lookup(entries: seq<Entry>, i: nat): Option<ToolCall> {
    if entries == [] then None
    else if entries[|entries| - 1].index == i then Some(entries[|entries| - 1].call)
    else Lookup(entries[..|entries| - 1], i)
  }

  lemma {:induction false} LookupAt(entries: seq<Entry>, k: nat)
    requires Distinct(entries) && k < |entries|
    ensures Lookup(entries, entries[k].index) == Some(entries[k].call)
    decreases |entries|
  {
    if k < |entries| - 1 { LookupAt(entries[..|entries| - 1], k); }
  }

  lemma {:induction false} LookupSome(entries: seq<Entry>, i: nat)
    ensures Lookup(entries, i).Some? <==> exists k | 0 <= k < |entries| :: entries[k].index == i
    decreases |entries|
  {
    if entries != [] {
      var n := |entries| - 1;
      LookupSome(entries[..n], i);
      if k :| 0 <= k < |entries| && entries[k].index == i {
        assert k < n ==> entries[..n][k] == entries[k];
      }
    }
  }

  lemma {:induction false} LookupCons(e: Entry, rest: seq<Entry>, i: nat)
    ensures Lookup([e] + rest, i)
         == if Lookup(rest, i).Some? then Lookup(rest, i) else if e.index == i then Some(e.call) else None
    decreases |rest|
  {
    if rest != [] {
      var n := |rest| - 1;
      assert ([e] + rest)[..n + 1] == [e] + rest[..n];
      LookupCons(e, rest[..n], i);
    } else {
      assert ([e] + rest)[..0] == [];
    }
  }

  lemma {:induction false} AddChunkLookup(entries: seq<Entry>, c: Chunk, i: nat)
    requires Distinct(entries)
    ensures Distinct(AddChunk(entries, c))
    ensures Lookup(AddChunk(entries, c), i)
         == if i == c.index then Some(Merge(Known(Lookup(entries, i)), c)) else Lookup(entries, i)
    decreases |entries|
  {
    if entries != [] {
      var e, rest := entries[0], entries[1..];
      assert entries == [e] + rest;
      LookupCons(e, rest, i);
      LookupSome(rest, e.index);
      if e.index == c.index {
        LookupCons(Entry(c.index, Merge(e.call, c)), rest, i);
      } else {
        AddChunkLookup(rest, c, i);
        AddChunkLookup(rest, c, e.index);
        LookupCons(e, AddChunk(rest, c), i);
        LookupSome(AddChunk(rest, c), e.index);
        PrependDistinct(e, AddChunk(rest, c));
      }
    }
  }

  lemma PrependDistinct(e: Entry, rest: seq<Entry>)
    requires Distinct(rest) && forall k | 0 <= k < |rest| :: rest[k].index != e.index
    ensures Distinct([e] + rest)
  {
  }

  function Known(call: Option<ToolCall>): ToolCall {
    if call.Some? then call.value else ToolCall("", "")
  }

  lemma {:induction false} NameSnoc(chunks: seq<Chunk>, c: Chunk)
    ensures FirstName(chunks + [c])
         == if FirstName(chunks) == "" && c.name.Some? then c.name.value else FirstName(chunks)
    decreases |chunks|
  {
    if chunks == [] {
      assert [c][1..] == [];
      assert chunks + [c] == [c];
    } else {
      assert (chunks + [c])[1..] == chunks[1..] + [c];
      NameSnoc(chunks[1..], c);
    }
  }

  lemma {:induction false} FragmentsSnoc(chunks: seq<Chunk>, c: Chunk)
    ensures Fragments(chunks + [c])
         == if c.fragment.Some? then Fragments(chunks) + c.fragment.value else Fragments(chunks)
    decreases |chunks|
  {
    if chunks == [] {
      assert chunks + [c] == [c];
      assert Fragments([c][1..]) == "";
    } else {
      var head := if chunks[0].fragment.Some? then chunks[0].fragment.value else "";
      assert (chunks + [c])[1..] == chunks[1..] + [c];
      FragmentsSnoc(chunks[1..], c);
      if c.fragment.Some? { Assoc(head, Fragments(chunks[1..]), c.fragment.value); }
    }
  }

  /** The in-place table after any chunk sequence: exactly the reference call of every index seen. */
  lemma {:induction false} TableIsReference(chunks: seq<Chunk>, i: nat)
    ensures Distinct(AddChunks([], chunks))
    ensures Lookup(AddChunks([], chunks), i)
         == if ForIndex(chunks, i) == [] then None else Some(CallFor(chunks, i))
    decreases |chunks|
  {
    if chunks != [] {
      var init, c := chunks[..|chunks| - 1], chunks[|chunks| - 1];
      TableIsReference(init, i);
      AddChunkLookup(AddChunks([], init), c, i);
      var mine := ForIndex(init, i);
      if c.index == i {
        NameSnoc(mine, c);
        FragmentsSnoc(mine, c);
      } else {
        assert mine + [] == mine;
      }
    }
  }

  lemma {:induction false} InsertMembers(sorted: seq<Entry>, e: Entry)
    ensures forall x | x in InsertEntry(sorted, e) :: x == e || x in sorted
    decreases |sorted|
  {
    if sorted != [] {
      var n := |sorted| - 1;
      InsertMembers(sorted[..n], e);
      assert sorted[n] in sorted && forall x | x in sorted[..n] :: x in sorted;
    }
  }

  lemma AscendingSnoc(sorted: seq<Entry>, last: Entry)
    requires Ascending(sorted) && forall x | x in sorted :: x.index < last.index
    ensures Ascending(sorted + [last])
  {
    assert forall k | 0 <= k < |sorted| :: sorted[k] in sorted;
  }

  lemma AscendingFront(sorted: seq<Entry>)
    requires Ascending(sorted) && sorted != []
    ensures Ascending(sorted[..|sorted| - 1])
    ensures forall x | x in sorted[..|sorted| - 1] :: x.index < sorted[|sorted| - 1].index
  {
  }

  lemma {:induction false} InsertAscending(sorted: seq<Entry>, e: Entry)
    requires Ascending(sorted) && Lookup(sorted, e.index).None?
    ensures Ascending(InsertEntry(sorted, e))
    decreases |sorted|
  {
    if sorted != [] {
      var n := |sorted| - 1;
      var front, last := sorted[..n], sorted[n];
      AscendingFront(sorted);
      if last.index <= e.index {
        assert forall x | x in sorted :: x in front || x == last;
        AscendingSnoc(sorted, e);
      } else {
        InsertAscending(front, e);
        InsertMembers(front, e);
        AscendingSnoc(InsertEntry(front, e), last);
      }
    }
  }

  lemma {:induction false} InsertLookup(sorted: seq<Entry>, e: Entry, i: nat)
    requires Ascending(sorted) && Lookup(sorted, e.index).None?
    ensures Lookup(InsertEntry(sorted, e), i) == if i == e.index then Some(e.call) else Lookup(sorted, i)
    decreases |sorted|
  {
    if sorted != [] {
      var n := |sorted| - 1;
      var front, last := sorted[..n], sorted[n];
      if last.index <= e.index {
        assert (sorted + [e])[..n + 1] == sorted;
      } else {
        AscendingFront(sorted);
        InsertLookup(front, e, i);
        var r := InsertEntry(front, e);
        assert (r + [last])[..|r|] == r;
      }
    }
  }

  lemma {:induction false} SortKeepsLookup(entries: seq<Entry>, i: nat)
    requires Distinct(entries)
    ensures Ascending(SortEntries(entries))
    ensures Lookup(SortEntries(entries), i) == Lookup(entries, i)
    decreases |entries|
  {
    if entries != [] {
      var n := |entries| - 1;
      var front, last := entries[..n], entries[n];
      SortKeepsLookup(front, i);
      SortKeepsLookup(front, last.index);
      LookupSome(front, last.index);
      InsertAscending(SortEntries(front), last);
      InsertLookup(SortEntries(front), last, i);
    }
  }

  lemma {:induction false} AscendingUnique(a: seq<Entry>, b: seq<Entry>)
    requires Ascending(a) && Ascending(b)
    requires forall i: nat :: Lookup(a, i) == Lookup(b, i)
    ensures a == b
    decreases |a|
  {
    assert b != [] ==> Lookup(b, b[|b| - 1].index).Some?;
    if a == [] {
      assert b == [];
    } else {
      var x := a[|a| - 1];
      LookupSome(b, x.index);
      var y := b[|b| - 1];
      LookupSome(a, y.index);
      assert x.index == y.index;
      var fa, fb := a[..|a| - 1], b[..|b| - 1];
      assert forall k | 0 <= k < |fa| :: fa[k].index < x.index;
      assert forall k | 0 <= k < |fb| :: fb[k].index < y.index;
      forall i: nat ensures Lookup(fa, i) == Lookup(fb, i) {
        LookupSome(fa, i);
        LookupSome(fb, i);
        assert Lookup(a, i) == Lookup(b, i);
      }
      AscendingUnique(fa, fb);
    }
  }

  /** The final chat table: distinct indices ascending, each with its reference call, none missing. */
  predicate IsChatTable(out: seq<Entry>, chunks: seq<Chunk>) {
    && Ascending(out)
    && (forall k | 0 <= k < |out| ::
          ForIndex(chunks, out[k].index) != [] && out[k].call == CallFor(chunks, out[k].index))
    && (forall k | 0 <= k < |chunks| ::
          exists m :: 0 <= m < |out| && out[m].index == chunks[k].index)
  }

  lemma {:induction false} SeenIsFor(chunks: seq<Chunk>, k: nat)
    requires k < |chunks|
    ensures ForIndex(chunks, chunks[k].index) != []
    decreases |chunks|
  {
    if k < |chunks| - 1 { SeenIsFor(chunks[..|chunks| - 1], k); }
  }

  lemma ChatTableIsReference(chunks: seq<Chunk>)
    ensures IsChatTable(SortEntries(AddChunks([], chunks)), chunks)
  {
    var table := AddChunks([], chunks);
    var out := SortEntries(table);
    TableIsReference(chunks, 0);
    SortKeepsLookup(table, 0);
    forall k | 0 <= k < |out|
      ensures ForIndex(chunks, out[k].index) != [] && out[k].call == CallFor(chunks, out[k].index)
    {
      LookupAt(out, k);
      SortKeepsLookup(table, out[k].index);
      TableIsReference(chunks, out[k].index);
    }
    forall k | 0 <= k < |chunks|
      ensures exists m :: 0 <= m < |out| && out[m].index == chunks[k].index
    {
      SeenIsFor(chunks, k);
      SortKeepsLookup(table, chunks[k].index);
      TableIsReference(chunks, chunks[k].index);
      LookupSome(out, chunks[k].index);
    }
  }

  /** Reordering chunks of different indices changes nothing. */
  lemma ChatOrderIrrelevant(xs: seq<Chunk>, ys: seq<Chunk>)
    requires forall i: nat :: ForIndex(xs, i) == ForIndex(ys, i)
    ensures SortEntries(AddChunks([], xs)) == SortEntries(AddChunks([], ys))
  {
    TableIsReference(xs, 0);
    TableIsReference(ys, 0);
    var a, b := AddChunks([], xs), AddChunks([], ys);
    SortKeepsLookup(a, 0);
    SortKeepsLookup(b, 0);
    forall i: nat ensures Lookup(SortEntries(a), i) == Lookup(SortEntries(b), i) {
      TableIsReference(xs, i);
      TableIsReference(ys, i);
      SortKeepsLookup(a, i);
      SortKeepsLookup(b, i);
    }
    AscendingUnique(SortEntries(a), SortEntries(b));
  }

  lemma {:induction false} AddChunksConcat(entries: seq<Entry>, a: seq<Chunk>, b: seq<Chunk>)
    ensures AddChunks(entries, a + b) == AddChunks(AddChunks(entries, a), b)
    decreases |b|
  {
    if b == [] {
      assert a + b == a;
    } else {
      assert (a + b)[..|a + b| - 1] == a + b[..|b| - 1];
      AddChunksConcat(entries, a, b[..|b| - 1]);
    }
  }

  lemma ChatRulesOnce(acc: Acc, event: Option<string>, v: Value)
    ensures var r := ApplyRules(acc, CHAT_RULES, event, v);
            r.chatTools == AddChunks(acc.chatTools, ChunksOf(ChunkArray(v)))
            && r.tools == acc.tools && r.pending == acc.pending
  {
    var first := CHAT_RULES[..1];
    assert first[..0] == [];
    assert ApplyRules(acc, [], event, v) == acc;
    var mid := ApplyRules(acc, first, event, v);
    assert first[0] == CHAT_RULES[0];
    assert mid == ApplyAction(acc, CHAT_RULES[0].action, v);
  }

  lemma {:induction false} ChatFold(p: Protocol, frames: seq<string>)
    requires IsChat(p)
    ensures var acc := FeedAllOf(p, EMPTY_ACC, frames);
            acc.chatTools == AddChunks([], StreamChunks(p, frames)) && acc.tools == [] && acc.pending == None
    decreases |frames|
  {
    if frames != [] {
      var init, data := frames[..|frames| - 1], frames[|frames| - 1];
      ChatFold(p, init);
      AddChunksConcat([], StreamChunks(p, init), FrameChunks(p, data));
      var acc := FeedAllOf(p, EMPTY_ACC, init);
      match Parsed(p, data) {
        case None =>
        case Some(v) =>
          var marked := ErrorMarker(p, v);
          ChatRulesOnce(if marked.Some? then acc.(error := marked) else acc, v.Get("type").AsStr(), v);
      }
    }
  }

  /** The tool calls of a whole chat body are the reference calls of its chunks, in index order. */
  lemma ChatBodyTools(p: Protocol, body: seq<byte>)
    requires IsChat(p)
    ensures exists out ::
      IsChatTable(out, StreamChunks(p, FramesOf(DecodeLossy(body)))) && WholeBody(p, body).tools == CallsOf(out)
  {
    var frames := FramesOf(DecodeLossy(body));
    ChatFold(p, frames);
    var chunks := StreamChunks(p, frames);
    ChatTableIsReference(chunks);
    var out := SortEntries(AddChunks([], chunks));
    assert [] + [] + CallsOf(out) == CallsOf(out);
    assert WholeBody(p, body).tools == CallsOf(out);
  }

  // ---------------------------------------------------------------------------------------------
  // Anthropic messages: blocks opened, extended and closed

  const ANTHROPIC_RULES := [
    SseRule("content_block_delta", None, Some("text_delta"), Text(["delta", "text"])),
    SseRule("content_block_start", None, None, ToolOpen),
    SseRule("content_block_delta", None, Some("input_json_delta"), ToolArg),
    SseRule("content_block_stop", None, None, ToolClose)
  ]

  predicate IsAnthropic(p: Protocol) {
    p.rules == ANTHROPIC_RULES && p.strategy.DeltaAssembly?
  }

  datatype BlockEvent = Open(index: nat, name: string) | Arg(index: nat, fragment: string) | Close(index: nat) | Quiet

  function EventOf(v: Value): BlockEvent {
    var kind, index := v.Get("type"), v.Get("index").IndexOrZero();
    if kind == Str("content_block_start") then
      if v.Get("content_block").Get("type") == Str("tool_use")
      then Open(index, v.Get("content_block").Get("name").StrOrEmpty()) else Quiet
    else if kind == Str("content_block_delta") && v.Get("delta").Get("type") == Str("input_json_delta") then
      var d := v.Get("delta").Get("partial_json").AsStr();
      if d.Some? then Arg(index, d.value) else Quiet
    else if kind == Str("content_block_stop") then Close(index)
    else Quiet
  }

  function FrameEvent(p: Protocol, data: string): BlockEvent {
    match Parsed(p, data) case None => Quiet case Some(v) => EventOf(v)
  }

  function StreamEvents(p: Protocol, frames: seq<string>): (r: seq<BlockEvent>)
    ensures |r| == |frames|
  {
    seq(|frames|, i requires 0 <= i < |frames| => FrameEvent(p, frames[i]))
  }

  /** Fragments addressed to block `i` until it closes, another tool block opens, or the end. */
  function ArgsUntilEnd(events: seq<BlockEvent>, i: nat): string {
    if events == [] || events[0].Open? || events[0] == Close(i) then ""
    else (if events[0].Arg? && events[0].index == i then events[0].fragment else "") + ArgsUntilEnd(events[1..], i)
  }

  /** Reference: one call per tool block opened, in opening order. */
  function BlockCalls(events: seq<BlockEvent>): seq<ToolCall> {
    if events == [] then []
    else (match events[0]
          case Open(i, name) => [ToolCall(name, ArgsUntilEnd(events[1..], i))]
          case _ => []) + BlockCalls(events[1..])
  }

  datatype Assembly = Assembly(tools: seq<ToolCall>, pending: Option<Pending>)

  function Assemble(s: Assembly, e: BlockEvent): Assembly {
    match e
    case Open(i, name) => Assembly(s.tools + PendingCalls(s.pending), Some(Pending(i, ToolCall(name, ""))))
    case Arg(i, f) =>
      if s.pending.Some? && s.pending.value.index == i then
        var call := s.pending.value.call;
        s.(pending := Some(Pending(i, ToolCall(call.name, call.arguments + f))))
      else s
    case Close(i) =>
      if s.pending.Some? && s.pending.value.index == i
      then Assembly(s.tools + [s.pending.value.call], None) else s
    case Quiet => s
  }

  function AssembleAll(s: Assembly, events: seq<BlockEvent>): Assembly
    decreases events
  {
    if events == [] then s else AssembleAll(Assemble(s, events[0]), events[1..])
  }

  function Completed(p: Option<Pending>, events: seq<BlockEvent>): seq<ToolCall> {
    if p.None? then []
    else [ToolCall(p.value.call.name, p.value.call.arguments + ArgsUntilEnd(events, p.value.index))]
  }

  /** The one-slot assembler yields the reference calls, completed from wherever it stands. */
  lemma {:induction false} AssembledIsReference(s: Assembly, events: seq<BlockEvent>)
    ensures var r := AssembleAll(s, events);
            r.tools + PendingCalls(r.pending) == s.tools + Completed(s.pending, events) + BlockCalls(events)
    decreases |events|
  {
    if events == [] {
      if s.pending.Some? {
        assert s.pending.value.call.arguments + "" == s.pending.value.call.arguments;
      }
    } else {
      var next := Assemble(s, events[0]);
      AssembledIsReference(next, events[1..]);
      AssembleStep(s, events);
    }
  }

  lemma {:induction false} AssembleStep(s: Assembly, events: seq<BlockEvent>)
    requires events != []
    ensures (var next := Assemble(s, events[0]);
             next.tools + Completed(next.pending, events[1..]) + BlockCalls(events[1..]))
         == s.tools + Completed(s.pending, events) + BlockCalls(events)
  {
    var e, rest := events[0], events[1..];
    if s.pending.Some? { ArgsStep(s.pending.value, events); }
    match e {
      case Open(i, name) =>
        EmptyHead(ArgsUntilEnd(rest, i));
        var begun := [ToolCall(name, ArgsUntilEnd(rest, i))];
        assert Completed(Some(Pending(i, ToolCall(name, ""))), rest) == begun;
        assert Completed(s.pending, events) == PendingCalls(s.pending);
        assert BlockCalls(events) == begun + BlockCalls(rest);
        Assoc(s.tools + PendingCalls(s.pending), begun, BlockCalls(rest));
      case _ =>
        EmptyHead(BlockCalls(rest));
        var next := Assemble(s, e);
        assert next.tools + Completed(next.pending, rest) == s.tools + Completed(s.pending, events);
    }
  }

  lemma EmptyHead<T>(s: seq<T>)
    ensures [] + s == s == s + []
  {
  }

  /** What one event adds to the arguments of the block under way, and when it ends the block. */
  lemma {:induction false} ArgsStep(p: Pending, events: seq<BlockEvent>)
    requires events != []
    ensures p.call.arguments + ArgsUntilEnd(events, p.index)
         == if events[0].Open? || events[0] == Close(p.index) then p.call.arguments
            else if events[0].Arg? && events[0].index == p.index
            then p.call.arguments + events[0].fragment + ArgsUntilEnd(events[1..], p.index)
            else p.call.arguments + ArgsUntilEnd(events[1..], p.index)
  {
    var e, rest := events[0], events[1..];
    EmptyHead(p.call.arguments);
    EmptyHead(ArgsUntilEnd(rest, p.index));
    if e.Arg? && e.index == p.index {
      Assoc(p.call.arguments, e.fragment, ArgsUntilEnd(rest, p.index));
    }
  }

  lemma AnthropicRulesOnce(acc: Acc, v: Value)
    ensures var r := ApplyRules(acc, ANTHROPIC_RULES, v.Get("type").AsStr(), v);
            Assembly(r.tools, r.pending) == Assemble(Assembly(acc.tools, acc.pending), EventOf(v))
  {
    var event := v.Get("type").AsStr();
    var r := ANTHROPIC_RULES;
    var r3, r2, r1 := r[..3], r[..2], r[..1];
    assert r3[..2] == r2 && r2[..1] == r1 && r1[..0] == [];
    assert r3[2] == r[2] && r2[1] == r[1] && r1[0] == r[0];
    assert ApplyRules(acc, [], event, v) == acc;
    var a1 := ApplyRules(acc, r1, event, v);
    assert a1 == if MatchesRule(r[0], event, v) then ApplyAction(acc, r[0].action, v) else acc;
    assert a1.tools == acc.tools && a1.pending == acc.pending;
    var a2 := ApplyRules(acc, r2, event, v);
    var a3 := ApplyRules(acc, r3, event, v);
  }

  lemma {:induction false} AnthropicFold(p: Protocol, frames: seq<string>)
    requires IsAnthropic(p)
    ensures var acc := FeedAllOf(p, EMPTY_ACC, frames);
            Assembly(acc.tools, acc.pending) == AssembleAll(Assembly([], None), StreamEvents(p, frames))
    decreases |frames|
  {
    if frames != [] {
      var init, data := frames[..|frames| - 1], frames[|frames| - 1];
      AnthropicFold(p, init);
      assert StreamEvents(p, frames) == StreamEvents(p, init) + [FrameEvent(p, data)];
      AssembleSnoc(Assembly([], None), StreamEvents(p, init), FrameEvent(p, data));
      var acc := FeedAllOf(p, EMPTY_ACC, init);
      match Parsed(p, data) {
        case None =>
        case Some(v) =>
          var marked := ErrorMarker(p, v);
          AnthropicRulesOnce(if marked.Some? then acc.(error := marked) else acc, v);
      }
    }
  }

  lemma {:induction false} AssembleSnoc(s: Assembly, events: seq<BlockEvent>, e: BlockEvent)
    ensures AssembleAll(s, events + [e]) == Assemble(AssembleAll(s, events), e)
    decreases |events|
  {
    if events == [] {
      assert [e][1..] == [];
      assert events + [e] == [e];
    } else {
      assert (events + [e])[1..] == events[1..] + [e];
      AssembleSnoc(Assemble(s, events[0]), events[1..], e);
    }
  }

  /** The tool calls of a whole Anthropic body: one per block opened, with its own fragments only. */
  lemma {:induction false} AnthropicBodyTools(p: Protocol, body: seq<byte>)
    requires IsAnthropic(p)
    ensures WholeBody(p, body).tools == BlockCalls(StreamEvents(p, FramesOf(DecodeLossy(body))))
  {
    AnthropicTools(p, FramesOf(DecodeLossy(body)));
  }

  lemma {:induction false} AnthropicTools(p: Protocol, frames: seq<string>)
    requires IsAnthropic(p)
    ensures Finish(p, FeedAllOf(p, EMPTY_ACC, frames)).tools == BlockCalls(StreamEvents(p, frames))
  {
    AnthropicFold(p, frames);
    AssembledIsReference(Assembly([], None), StreamEvents(p, frames));
    FinishTools(p, FeedAllOf(p, EMPTY_ACC, frames));
  }

  lemma FinishTools(p: Protocol, acc: Acc)
    requires IsAnthropic(p)
    ensures Finish(p, acc).tools == acc.tools + PendingCalls(acc.pending)
  {
  }
}

/**
 The descriptor-driven engine: one parsed frame at a time updates an accumulator. The methods work
 on the accumulator in place; the functions of the same names (with `Of`) say what they leave in it.
 */
module Engine {
  import opened Prelude
  import opened Utf8
  import opened Frames
  import opened Json

  // ---------------------------------------------------------------------------------------------
  // Descriptor tables

  datatype SseAction =
    | Text(path: seq<string>)
    | ToolOpen
    | ToolArg
    | ToolClose
    | ToolDone
    | ToolChunk

  datatype SseRule = SseRule(on: string, dataType: Option<string>, deltaType: Option<string>, action: SseAction)

  datatype UsageFrame = UsageFrame(onEvent: Option<string>, objPath: seq<string>)

  datatype ToolStrategy = DeltaAssembly | DoneItems | ChunkedToolCalls

  datatype TurnUsage = TurnUsage(
    input: Option<nat>, output: Option<nat>, cacheRead: Option<nat>,
    cacheCreation: Option<nat>, total: Option<nat>)

  /** A protocol table, with the library code the engine calls: JSON in, JSON out, token counts. */
  datatype Protocol = Protocol(
    name: string,
    rules: seq<SseRule>,
    strategy: ToolStrategy,
    usageFrames: seq<UsageFrame>,
    parse: string -> Option<Value>,
    render: Value -> string,
    readUsage: Value -> TurnUsage)

  datatype ToolCall = ToolCall(name: string, arguments: string)

  datatype Pending = Pending(index: nat, call: ToolCall)

  datatype Entry = Entry(index: nat, call: ToolCall)

  /** The accumulator as a value. */
  datatype Acc = Acc(
    text: string, usage: Option<TurnUsage>, frameErrors: nat, error: Option<string>,
    tools: seq<ToolCall>, pending: Option<Pending>, chatTools: seq<Entry>)

  const EMPTY_ACC := Acc("", None, 0, None, [], None, [])

  datatype Outcome = Outcome(
    text: string, usage: Option<TurnUsage>, tools: seq<ToolCall>,
    frameErrors: nat, error: Option<string>)

  // ---------------------------------------------------------------------------------------------
  // One frame

  predicate MatchesRule(rule: SseRule, event: Option<string>, v: Value) {
    && (rule.on == "*" || event == Some(rule.on))
    && (rule.dataType.Some? ==> v.Get("type").AsStr() == rule.dataType)
    && (rule.deltaType.Some? ==> v.Get("delta").Get("type").AsStr() == rule.deltaType)
  }

  /** One `delta.tool_calls` element. */
  datatype Chunk = Chunk(index: nat, name: Option<string>, fragment: Option<string>)

  function ChunkOf(tc: Value): Chunk {
    var f := tc.Get("function");
    Chunk(tc.Get("index").IndexOrZero(), f.Get("name").AsStr(), f.Get("arguments").AsStr())
  }

  function ChunksOf(calls: seq<Value>): (r: seq<Chunk>)
    ensures |r| == |calls|
  {
    seq(|calls|, i requires 0 <= i < |calls| => ChunkOf(calls[i]))
  }

  function ChunkArray(v: Value): seq<Value> {
    var calls := v.Get("choices").At(0).Get("delta").Get("tool_calls");
    if calls.Arr? then calls.items else []
  }

  /** The first non-empty name wins; arguments append. */
  function Merge(call: ToolCall, c: Chunk): ToolCall {
    ToolCall(
      if call.name == "" && c.name.Some? then c.name.value else call.name,
      if c.fragment.Some? then call.arguments + c.fragment.value else call.arguments)
  }

  function AddChunk(entries: seq<Entry>, c: Chunk): seq<Entry> {
    if entries == [] then [Entry(c.index, Merge(ToolCall("", ""), c))]
    else if entries[0].index == c.index then [Entry(c.index, Merge(entries[0].call, c))] + entries[1..]
    else [entries[0]] + AddChunk(entries[1..], c)
  }

  function AddChunks(entries: seq<Entry>, chunks: seq<Chunk>): seq<Entry> {
    if chunks == [] then entries
    else AddChunk(AddChunks(entries, chunks[..|chunks| - 1]), chunks[|chunks| - 1])
  }

  /** The first entry of the chunk's index takes it, or a new one at the end does. */
  lemma {:induction false} AddChunkAt(entries: seq<Entry>, c: Chunk, i: nat)
    requires i <= |entries| && forall j | 0 <= j < i :: entries[j].index != c.index
    requires i < |entries| ==> entries[i].index == c.index
    ensures AddChunk(entries, c)
         == if i < |entries| then entries[i := Entry(c.index, Merge(entries[i].call, c))]
            else entries + [Entry(c.index, Merge(ToolCall("", ""), c))]
  {
    if i > 0 {
      AddChunkAt(entries[1..], c, i - 1);
      assert entries == [entries[0]] + entries[1..];
    }
  }

  function DoneCall(item: Value): ToolCall {
    var arguments := item.Get("arguments").AsStr();
    ToolCall(
      item.Get("name").StrOrEmpty(),
      if arguments.Some? then arguments.value else item.Get("input").StrOrEmpty())
  }

  function PendingCalls(p: Option<Pending>): seq<ToolCall> {
    if p.Some? then [p.value.call] else []
  }

  function ApplyAction(acc: Acc, action: SseAction, v: Value): Acc {
    match action
    case Text(path) =>
      var t := ResolvePath(v, path).AsStr();
      if t.Some? then acc.(text := acc.text + t.value) else acc
    case ToolOpen =>
      var block := v.Get("content_block");
      if block.Get("type") == Str("tool_use") then
        acc.(
          tools := acc.tools + PendingCalls(acc.pending),
          pending := Some(Pending(v.Get("index").IndexOrZero(), ToolCall(block.Get("name").StrOrEmpty(), ""))))
      else acc
    case ToolArg =>
      var d := v.Get("delta").Get("partial_json").AsStr();
      if acc.pending.Some? && acc.pending.value.index == v.Get("index").IndexOrZero() && d.Some? then
        var p := acc.pending.value;
        acc.(pending := Some(Pending(p.index, ToolCall(p.call.name, p.call.arguments + d.value))))
      else acc
    case ToolClose =>
      if acc.pending.Some? && acc.pending.value.index == v.Get("index").IndexOrZero() then
        acc.(tools := acc.tools + [acc.pending.value.call], pending := None)
      else acc
    case ToolDone =>
      var item := v.Get("item");
      if item.Get("type") == Str("function_call") || item.Get("type") == Str("custom_tool_call") then
        acc.(tools := acc.tools + [DoneCall(item)])
      else acc
    case ToolChunk =>
      acc.(chatTools := AddChunks(acc.chatTools, ChunksOf(ChunkArray(v))))
  }

  /** Every matching rule is evaluated, in table order. */
  function ApplyRules(acc: Acc, rules: seq<SseRule>, event: Option<string>, v: Value): Acc {
    if rules == [] then acc
    else
      var before := ApplyRules(acc, rules[..|rules| - 1], event, v);
      var rule := rules[|rules| - 1];
      if MatchesRule(rule, event, v) then ApplyAction(before, rule.action, v) else before
  }

  function ErrorMarker(p: Protocol, v: Value): Option<string> {
    var kind := v.Get("type");
    if p.name == "openai.responses" || p.name == "openai.live" then
      if kind == Str("response.failed") || kind == Str("response.incomplete")
      then Some(p.render(v.Get("response").Get("error"))) else None
    else if p.name == "anthropic.messages" then
      if kind == Str("error") then Some(p.render(v.Get("error"))) else None
    else None
  }

  function UsageFromFrame(p: Protocol, frames: seq<UsageFrame>, v: Value): Option<TurnUsage> {
    if frames == [] then None
    else
      var uf := frames[0];
      var obj := ResolvePath(v, uf.objPath);
      if (uf.onEvent.None? || v.Get("type").AsStr() == uf.onEvent) && obj != Null then Some(p.readUsage(obj))
      else UsageFromFrame(p, frames[1..], v)
  }

  function Later<T>(cur: Option<T>, next: Option<T>): Option<T> {
    if next.Some? then next else cur
  }

  /** `merge_usage`: field by field, the latest report stands. */
  function MergeUsage(cur: Option<TurnUsage>, next: TurnUsage): Option<TurnUsage> {
    if cur.None? then Some(next)
    else
      var c := cur.value;
      Some(TurnUsage(
        Later(c.input, next.input), Later(c.output, next.output), Later(c.cacheRead, next.cacheRead),
        Later(c.cacheCreation, next.cacheCreation), Later(c.total, next.total)))
  }

  predicate IsWhitespace(c: char) {
    || '\t' <= c <= '\r' || c == ' ' || c == '\U{85}' || c == '\U{A0}' || c == '\U{1680}'
    || '\U{2000}' <= c <= '\U{200A}' || c == '\U{2028}' || c == '\U{2029}' || c == '\U{202F}'
    || c == '\U{205F}' || c == '\U{3000}'
  }

  function TrimStart(s: string): string {
    if s != "" && IsWhitespace(s[0]) then TrimStart(s[1..]) else s
  }

  function TrimEnd(s: string): string {
    if s != "" && IsWhitespace(s[|s| - 1]) then TrimEnd(s[..|s| - 1]) else s
  }

  /** Comment keep-alives (empty payloads) and the chat termination sentinel. */
  predicate IsFurniture(data: string) {
    var trimmed := TrimEnd(TrimStart(data));
    trimmed == "" || trimmed == "[DONE]"
  }

  function FeedValue(p: Protocol, acc: Acc, v: Value): Acc {
    var marked := ErrorMarker(p, v);
    var a := if marked.Some? then acc.(error := marked) else acc;
    var b := ApplyRules(a, p.rules, v.Get("type").AsStr(), v);
    var u := UsageFromFrame(p, p.usageFrames, v);
    if u.Some? then b.(usage := MergeUsage(b.usage, u.value)) else b
  }

  function FeedFrameOf(p: Protocol, acc: Acc, data: string): Acc {
    if IsFurniture(data) then acc
    else match p.parse(data)
      case None => acc.(frameErrors := acc.frameErrors + 1)
      case Some(v) => FeedValue(p, acc, v)
  }

  function FeedAllOf(p: Protocol, acc: Acc, frames: seq<string>): Acc {
    if frames == [] then acc
    else FeedFrameOf(p, FeedAllOf(p, acc, frames[..|frames| - 1]), frames[|frames| - 1])
  }

  lemma {:induction false} FeedConcat(p: Protocol, acc: Acc, a: seq<string>, b: seq<string>)
    ensures FeedAllOf(p, acc, a + b) == FeedAllOf(p, FeedAllOf(p, acc, a), b)
    decreases |b|
  {
    if b == [] {
      assert a + b == a;
    } else {
      assert (a + b)[..|a + b| - 1] == a + b[..|b| - 1];
      FeedConcat(p, acc, a, b[..|b| - 1]);
    }
  }

  // ---------------------------------------------------------------------------------------------
  // Finishing

  /** `sort_by_key`, stable: insert each entry behind those that do not exceed it. */
  function InsertEntry(sorted: seq<Entry>, e: Entry): seq<Entry> {
    if sorted == [] then [e]
    else if sorted[|sorted| - 1].index <= e.index then sorted + [e]
    else InsertEntry(sorted[..|sorted| - 1], e) + [sorted[|sorted| - 1]]
  }

  function SortEntries(entries: seq<Entry>): seq<Entry> {
    if entries == [] then [] else InsertEntry(SortEntries(entries[..|entries| - 1]), entries[|entries| - 1])
  }

  function CallsOf(entries: seq<Entry>): (r: seq<ToolCall>)
    ensures |r| == |entries|
  {
    seq(|entries|, i requires 0 <= i < |entries| => entries[i].call)
  }

  function Finish(p: Protocol, acc: Acc): Outcome {
    Outcome(
      acc.text, acc.usage,
      acc.tools + PendingCalls(acc.pending)
        + (if p.strategy.ChunkedToolCalls? then CallsOf(SortEntries(acc.chatTools)) else []),
      acc.frameErrors, acc.error)
  }

  /** The outcome of one pass over a whole body: decode, frame, feed every frame, finish. */
  function WholeBody(p: Protocol, body: seq<byte>): Outcome {
    Finish(p, FeedAllOf(p, EMPTY_ACC, FramesOf(DecodeLossy(body))))
  }

  // ---------------------------------------------------------------------------------------------
  // The accumulator in place

  class SseAccum {
    var text: string
    var usage: Option<TurnUsage>
    var frameErrors: nat
    var error: Option<string>
    var tools: seq<ToolCall>
    var pending: Option<Pending>
    var chatTools: seq<Entry>

    constructor ()
      ensures View() == EMPTY_ACC
    {
      text, usage, frameErrors, error := "", None, 0, None;
      tools, pending, chatTools := [], None, [];
    }

    function View(): Acc
      reads this
    {
      Acc(text, usage, frameErrors, error, tools, pending, chatTools)
    }

    /** The `ToolChunk` arm for one element: find the entry or push one, then update it in place. */
    method TakeChunk(c: Chunk)
      modifies `chatTools
      ensures chatTools == AddChunk(old(chatTools), c)
    {
      var i := 0;
      while i < |chatTools| && chatTools[i].index != c.index
        invariant 0 <= i <= |chatTools|
        invariant chatTools == old(chatTools)
        invariant forall j | 0 <= j < i :: chatTools[j].index != c.index
      {
        i := i + 1;
      }
      AddChunkAt(chatTools, c, i);
      if i == |chatTools| {
        chatTools := chatTools + [Entry(c.index, ToolCall("", ""))];
      }
      chatTools := chatTools[i := Entry(c.index, Merge(chatTools[i].call, c))];
    }

    method TakeChunks(calls: seq<Value>)
      modifies `chatTools
      ensures chatTools == AddChunks(old(chatTools), ChunksOf(calls))
    {
      ghost var chunks := ChunksOf(calls);
      for i := 0 to |calls|
        invariant chatTools == AddChunks(old(chatTools), chunks[..i])
      {
        assert chunks[..i + 1][..i] == chunks[..i];
        TakeChunk(ChunkOf(calls[i]));
      }
      assert chunks[..|calls|] == chunks;
    }

    method Apply(action: SseAction, v: Value)
      modifies this
      ensures View() == ApplyAction(old(View()), action, v)
    {
      match action {
        case Text(path) =>
          var t := ResolvePath(v, path).AsStr();
          if t.Some? { text := text + t.value; }
        case ToolOpen =>
          if v.Get("content_block").Get("type") == Str("tool_use") {
            if pending.Some? { tools := tools + [pending.value.call]; }
            pending := Some(Pending(
              v.Get("index").IndexOrZero(),
              ToolCall(v.Get("content_block").Get("name").StrOrEmpty(), "")));
          }
        case ToolArg =>
          var index := v.Get("index").IndexOrZero();
          if pending.Some? && pending.value.index == index {
            var d := v.Get("delta").Get("partial_json").AsStr();
            if d.Some? {
              var call := pending.value.call;
              pending := Some(Pending(index, ToolCall(call.name, call.arguments + d.value)));
            }
          }
        case ToolClose =>
          if pending.Some? && pending.value.index == v.Get("index").IndexOrZero() {
            tools := tools + [pending.value.call];
            pending := None;
          }
        case ToolDone =>
          var item := v.Get("item");
          if item.Get("type") == Str("function_call") || item.Get("type") == Str("custom_tool_call") {
            tools := tools + [DoneCall(item)];
          }
        case ToolChunk =>
          TakeChunks(ChunkArray(v));
      }
    }

    /** `apply_sse_rule`. */
    method ApplySseRules(p: Protocol, event: Option<string>, v: Value)
      modifies this
      ensures View() == ApplyRules(old(View()), p.rules, event, v)
    {
      for i := 0 to |p.rules|
        invariant View() == ApplyRules(old(View()), p.rules[..i], event, v)
      {
        assert p.rules[..i + 1][..i] == p.rules[..i];
        if MatchesRule(p.rules[i], event, v) {
          Apply(p.rules[i].action, v);
        }
      }
      assert p.rules[..|p.rules|] == p.rules;
    }

    /** `feed_frame`: parse, mark errors, run the rules, harvest usage. */
    method FeedFrame(p: Protocol, data: string)
      modifies this
      ensures View() == FeedFrameOf(p, old(View()), data)
    {
      if IsFurniture(data) { return; }
      var v := p.parse(data);
      if v.None? {
        frameErrors := frameErrors + 1;
        return;
      }
      var marked := ErrorMarker(p, v.value);
      if marked.Some? { error := marked; }
      ApplySseRules(p, v.value.Get("type").AsStr(), v.value);
      var u := UsageFromFrame(p, p.usageFrames, v.value);
      if u.Some? { usage := MergeUsage(usage, u.value); }
    }

    method FeedAll(p: Protocol, frames: seq<string>)
      modifies this
      ensures View() == FeedAllOf(p, old(View()), frames)
    {
      for i := 0 to |frames|
        invariant View() == FeedAllOf(p, old(View()), frames[..i])
      {
        assert frames[..i + 1][..i] == frames[..i];
        FeedFrame(p, frames[i]);
      }
      assert frames[..|frames|] == frames;
    }

    /** `finish_accum`: pending call, then the chat calls in index order. */
    method FinishAccum(p: Protocol) returns (out: Outcome)
      ensures out == Finish(p, View())
    {
      var calls := tools;
      if pending.Some? { calls := calls + [pending.value.call]; }
      if p.strategy.ChunkedToolCalls? { calls := calls + CallsOf(SortEntries(chatTools)); }
      out := Outcome(text, usage, calls, frameErrors, error);
    }
  }

  /** `stream_response`. */
  method StreamResponse(p: Protocol, body: seq<byte>) returns (out: Outcome)
    ensures out == WholeBody(p, body)
  {
    var acc := new SseAccum();
    var frames := SseDataFrames(body);
    acc.FeedAll(p, frames);
    out := acc.FinishAccum(p);
  }

  // ---------------------------------------------------------------------------------------------
  // The incremental path

  /** The accumulator together with the raw bytes that do not yet make a complete frame. */
  datatype Drain = Drain(acc: Acc, tail: seq<byte>)

  const EMPTY_DRAIN := Drain(EMPTY_ACC, [])

  function DrainFeedOf(p: Protocol, d: Drain, chunk: seq<byte>): Drain {
    var buf := d.tail + chunk;
    match LastFrameBoundary(buf)
    case None => Drain(d.acc, buf)
    case Some(cut) => Drain(FeedAllOf(p, d.acc, FramesOf(DecodeLossy(buf[..cut]))), buf[cut..])
  }

  function DrainFinishOf(p: Protocol, d: Drain): Outcome {
    Finish(p, FeedAllOf(p, d.acc, FramesOf(DecodeLossy(d.tail))))
  }

  function DrainAll(p: Protocol, d: Drain, chunks: seq<seq<byte>>): Drain {
    if chunks == [] then d
    else DrainFeedOf(p, DrainAll(p, d, chunks[..|chunks| - 1]), chunks[|chunks| - 1])
  }

  /** `drain_feed`: `buf` is the caller's byte vector, handed back as `rest`. */
  method DrainFeed(acc: SseAccum, p: Protocol, buf: seq<byte>, chunk: seq<byte>) returns (rest: seq<byte>)
    modifies acc
    ensures Drain(acc.View(), rest) == DrainFeedOf(p, Drain(old(acc.View()), buf), chunk)
  {
    rest := buf + chunk;
    var cut := LastFrameBoundary(rest);
    if cut.None? { return; }
    var complete := DecodeLossy(rest[..cut.value]);
    rest := rest[cut.value..];
    var frames := CollectFrames(complete);
    acc.FeedAll(p, frames);
  }

  /** `drain_finish`. */
  method DrainFinish(acc: SseAccum, p: Protocol, buf: seq<byte>) returns (out: Outcome)
    modifies acc
    ensures out == DrainFinishOf(p, Drain(old(acc.View()), buf))
  {
    var frames := CollectFrames(DecodeLossy(buf));
    acc.FeedAll(p, frames);
    out := acc.FinishAccum(p);
  }

  /**
   What the incremental path keeps: of everything received, a settled prefix has been parsed, the
   rest is the tail, and the tail holds no complete boundary.
   */
  ghost predicate Tracks(p: Protocol, d: Drain, received: seq<byte>) {
    && |d.tail| <= |received|
    && var consumed := received[..|received| - |d.tail|];
       && received == consumed + d.tail
       && Settled(consumed)
       && d.acc == FeedAllOf(p, EMPTY_ACC, FramesOf(DecodeLossy(consumed)))
       && LastFrameBoundary(d.tail).None?
  }

  lemma StartTracks(p: Protocol)
    ensures Tracks(p, EMPTY_DRAIN, [])
  {
    NoFrames();
  }

  lemma FeedTracks(p: Protocol, d: Drain, received: seq<byte>, chunk: seq<byte>)
    requires Tracks(p, d, received)
    ensures Tracks(p, DrainFeedOf(p, d, chunk), received + chunk)
  {
    var consumed := received[..|received| - |d.tail|];
    var buf := d.tail + chunk;
    Assoc(consumed, d.tail, chunk);
    var cut := LastFrameBoundary(buf);
    if cut.None? {
      assert (received + chunk)[..|consumed|] == consumed;
    } else {
      FeedReady(p, d.acc, consumed, buf, cut.value);
    }
  }

  /** A boundary in the buffer: what is before it is parsed, what is behind it stays. */
  lemma {:induction false} FeedReady(p: Protocol, acc: Acc, consumed: seq<byte>, buf: seq<byte>, cut: nat)
    requires Settled(consumed) && LastFrameBoundary(buf) == Some(cut)
    requires acc == FeedAllOf(p, EMPTY_ACC, FramesOf(DecodeLossy(consumed)))
    ensures Tracks(p, Drain(FeedAllOf(p, acc, FramesOf(DecodeLossy(buf[..cut]))), buf[cut..]), consumed + buf)
  {
    SettledExtends(consumed, buf, cut);
    NoBoundaryBehindLast(buf, cut);
    ParseReady(p, acc, consumed, buf, cut);
  }

  lemma FoldAtSettledCut(p: Protocol, a: seq<byte>, b: seq<byte>)
    requires Settled(a)
    ensures FeedAllOf(p, EMPTY_ACC, FramesOf(DecodeLossy(a + b)))
         == FeedAllOf(p, FeedAllOf(p, EMPTY_ACC, FramesOf(DecodeLossy(a))), FramesOf(DecodeLossy(b)))
  {
    FramesAtSettledCut(a, b);
    var before, after := FramesOf(DecodeLossy(a)), FramesOf(DecodeLossy(b));
    FeedConcat(p, EMPTY_ACC, before, after);
  }

  /** Parsing one more settled stretch extends the fold over the settled prefix. */
  lemma {:induction false} ParseReady(p: Protocol, acc: Acc, consumed: seq<byte>, buf: seq<byte>, cut: nat)
    requires cut <= |buf| && Settled(consumed) && Settled(consumed + buf[..cut])
    requires acc == FeedAllOf(p, EMPTY_ACC, FramesOf(DecodeLossy(consumed)))
    requires LastFrameBoundary(buf[cut..]).None?
    ensures Tracks(p, Drain(FeedAllOf(p, acc, FramesOf(DecodeLossy(buf[..cut]))), buf[cut..]), consumed + buf)
  {
    FoldAtSettledCut(p, consumed, buf[..cut]);
    CutInSuffix(consumed, buf, cut);
    TracksFolded(p, FeedAllOf(p, acc, FramesOf(DecodeLossy(buf[..cut]))),
                 consumed + buf[..cut], buf[cut..], consumed + buf);
  }

  lemma CutInSuffix<T>(a: seq<T>, b: seq<T>, cut: nat)
    requires cut <= |b|
    ensures a + b == a + b[..cut] + b[cut..]
    ensures (a + b)[..|a + b| - |b[cut..]|] == a + b[..cut]
  {
  }

  lemma {:induction false} TracksFolded(p: Protocol, acc: Acc, parsed: seq<byte>, tail: seq<byte>, all: seq<byte>)
    requires all == parsed + tail && all[..|all| - |tail|] == parsed
    requires Settled(parsed) && LastFrameBoundary(tail).None?
    requires acc == FeedAllOf(p, EMPTY_ACC, FramesOf(DecodeLossy(parsed)))
    ensures Tracks(p, Drain(acc, tail), all)
  {
  }

  lemma SettledExtends(consumed: seq<byte>, buf: seq<byte>, cut: nat)
    requires cut <= |buf| && BoundaryAt(buf, cut)
    ensures Settled(consumed + buf[..cut])
  {
    var s := consumed + buf[..cut];
    forall pat | EndsWith(buf, cut, pat)
      ensures EndsWith(s, |s|, pat)
    {
      assert s[|s| - |pat|..] == buf[cut - |pat|..cut];
    }
  }

  lemma BoundaryInSuffix(buf: seq<byte>, cut: nat, k: nat)
    requires cut + k <= |buf| && BoundaryAt(buf[cut..], k)
    ensures BoundaryAt(buf, cut + k)
  {
    var n := if EndsWith(buf[cut..], k, LF_LF) then 2 else 3;
    assert buf[cut..][k - n..k] == buf[cut + k - n..cut + k];
  }

  lemma NoBoundaryBehindLast(buf: seq<byte>, cut: nat)
    requires LastFrameBoundary(buf) == Some(cut)
    ensures LastFrameBoundary(buf[cut..]).None?
  {
    var later := LastFrameBoundary(buf[cut..]);
    if later.Some? {
      BoundaryInSuffix(buf, cut, later.value);
    }
  }

  lemma {:induction false} DrainTracks(p: Protocol, chunks: seq<seq<byte>>)
    ensures Tracks(p, DrainAll(p, EMPTY_DRAIN, chunks), Flatten(chunks))
    decreases |chunks|
  {
    if chunks == [] {
      StartTracks(p);
    } else {
      var before, last := chunks[..|chunks| - 1], chunks[|chunks| - 1];
      DrainTracks(p, before);
      DrainLast(p, chunks, before, last);
      TracksNext(p, DrainAll(p, EMPTY_DRAIN, before), Flatten(before), last,
                 DrainAll(p, EMPTY_DRAIN, chunks), Flatten(chunks));
    }
  }

  lemma {:induction false} TracksNext(
    p: Protocol, d: Drain, received: seq<byte>, chunk: seq<byte>, next: Drain, all: seq<byte>)
    requires Tracks(p, d, received) && next == DrainFeedOf(p, d, chunk) && all == received + chunk
    ensures Tracks(p, next, all)
  {
    FeedTracks(p, d, received, chunk);
  }

  lemma {:induction false} DrainLast(p: Protocol, chunks: seq<seq<byte>>, before: seq<seq<byte>>, last: seq<byte>)
    requires chunks != [] && before == chunks[..|chunks| - 1] && last == chunks[|chunks| - 1]
    ensures DrainAll(p, EMPTY_DRAIN, chunks) == DrainFeedOf(p, DrainAll(p, EMPTY_DRAIN, before), last)
    ensures Flatten(chunks) == Flatten(before) + last
  {
    FlattenSnoc(before, last);
    assert before + [last] == chunks;
  }

  lemma TracksFinish(p: Protocol, d: Drain, received: seq<byte>)
    requires Tracks(p, d, received)
    ensures DrainFinishOf(p, d) == WholeBody(p, received)
  {
    var consumed := received[..|received| - |d.tail|];
    FoldAtSettledCut(p, consumed, d.tail);
  }

  /** Chunk boundaries never matter: inside a frame, inside a delimiter, inside a code point. */
  lemma DrainEqualsWholeBody(p: Protocol, chunks: seq<seq<byte>>)
    ensures DrainFinishOf(p, DrainAll(p, EMPTY_DRAIN, chunks)) == WholeBody(p, Flatten(chunks))
  {
    DrainTracks(p, chunks);
    TracksFinish(p, DrainAll(p, EMPTY_DRAIN, chunks), Flatten(chunks));
  }
}

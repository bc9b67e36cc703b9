/**
 What a stream adds up to beside its chunked tool calls: text, usage, error, unreadable frames and
 finished tool items, each read off the whole stream on its own.
 */
module Totals {
  import opened Prelude
  import opened Utf8
  import opened Frames
  import opened Json
  import opened Engine
  import opened ToolCalls

  // ---------------------------------------------------------------------------------------------
  // One frame's share

  function ActionText(action: SseAction, v: Value): string {
    if action.Text? then ResolvePath(v, action.path).StrOrEmpty() else ""
  }

  predicate IsCallItem(item: Value) {
    item.Get("type") == Str("function_call") || item.Get("type") == Str("custom_tool_call")
  }

  function ActionItems(action: SseAction, v: Value): seq<ToolCall> {
    if action.ToolDone? && IsCallItem(v.Get("item")) then [DoneCall(v.Get("item"))] else []
  }

  function TextOf(rules: seq<SseRule>, v: Value): string {
    if rules == [] then ""
    else
      var rule := rules[|rules| - 1];
      TextOf(rules[..|rules| - 1], v)
        + (if MatchesRule(rule, v.Get("type").AsStr(), v) then ActionText(rule.action, v) else "")
  }

  function ItemsOf(rules: seq<SseRule>, v: Value): seq<ToolCall> {
    if rules == [] then []
    else
      var rule := rules[|rules| - 1];
      ItemsOf(rules[..|rules| - 1], v)
        + (if MatchesRule(rule, v.Get("type").AsStr(), v) then ActionItems(rule.action, v) else [])
  }

  function FrameText(p: Protocol, data: string): string {
    match Parsed(p, data) case None => "" case Some(v) => TextOf(p.rules, v)
  }

  function FrameItems(p: Protocol, data: string): seq<ToolCall> {
    match Parsed(p, data) case None => [] case Some(v) => ItemsOf(p.rules, v)
  }

  function FrameError(p: Protocol, data: string): Option<string> {
    match Parsed(p, data) case None => None case Some(v) => ErrorMarker(p, v)
  }

  function FrameReport(p: Protocol, data: string): Option<TurnUsage> {
    match Parsed(p, data) case None => None case Some(v) => UsageFromFrame(p, p.usageFrames, v)
  }

  /** Neither furniture nor JSON. */
  predicate IsUnreadable(p: Protocol, data: string) {
    !IsFurniture(data) && p.parse(data).None?
  }

  // ---------------------------------------------------------------------------------------------
  // The whole stream

  function StreamText(p: Protocol, frames: seq<string>): string {
    if frames == [] then "" else StreamText(p, frames[..|frames| - 1]) + FrameText(p, frames[|frames| - 1])
  }

  function StreamItems(p: Protocol, frames: seq<string>): seq<ToolCall> {
    if frames == [] then [] else StreamItems(p, frames[..|frames| - 1]) + FrameItems(p, frames[|frames| - 1])
  }

  function Unreadable(p: Protocol, frames: seq<string>): nat {
    if frames == [] then 0
    else Unreadable(p, frames[..|frames| - 1]) + (if IsUnreadable(p, frames[|frames| - 1]) then 1 else 0)
  }

  /** Frame `i` is the last of the stream for which `at` has a value. */
  predicate IsLatest<T>(frames: seq<string>, at: string -> Option<T>, i: nat) {
    i < |frames| && at(frames[i]).Some? && forall j | i < j < |frames| :: at(frames[j]).None?
  }

  /** The value is that of the last frame that has one; it is none only if no frame has one. */
  ghost predicate LatestIs<T>(frames: seq<string>, at: string -> Option<T>, value: Option<T>) {
    match value
    case None => forall i | 0 <= i < |frames| :: at(frames[i]).None?
    case Some(x) => exists i: nat :: IsLatest(frames, at, i) && at(frames[i]) == value
  }

  function ErrorAt(p: Protocol): string -> Option<string> {
    (data: string) => FrameError(p, data)
  }

  datatype UsageField = Input | Output | CacheRead | CacheCreation | TotalTokens

  function FieldOf(u: Option<TurnUsage>, f: UsageField): Option<nat> {
    if u.None? then None
    else match f
      case Input => u.value.input
      case Output => u.value.output
      case CacheRead => u.value.cacheRead
      case CacheCreation => u.value.cacheCreation
      case TotalTokens => u.value.total
  }

  function FieldAt(p: Protocol, f: UsageField): string -> Option<nat> {
    (data: string) => FieldOf(FrameReport(p, data), f)
  }

  lemma LatestSnoc<T>(frames: seq<string>, data: string, at: string -> Option<T>, value: Option<T>)
    requires LatestIs(frames, at, value)
    ensures LatestIs(frames + [data], at, Later(value, at(data)))
  {
    var all := frames + [data];
    assert forall i | 0 <= i < |frames| :: all[i] == frames[i];
    if at(data).Some? {
      assert IsLatest(all, at, |frames|);
    } else if value.Some? {
      var i: nat :| IsLatest(frames, at, i) && at(frames[i]) == value;
      assert IsLatest(all, at, i);
    }
  }

  lemma {:induction false} RulesText(acc: Acc, rules: seq<SseRule>, v: Value)
    ensures var r := ApplyRules(acc, rules, v.Get("type").AsStr(), v);
            && r.text == acc.text + TextOf(rules, v)
            && r.usage == acc.usage && r.error == acc.error && r.frameErrors == acc.frameErrors
    decreases |rules|
  {
    if rules != [] {
      var n := |rules| - 1;
      RulesText(acc, rules[..n], v);
      ActionTextAdded(ApplyRules(acc, rules[..n], v.Get("type").AsStr(), v), rules[n].action, v);
    }
  }

  lemma ActionTextAdded(acc: Acc, action: SseAction, v: Value)
    ensures var r := ApplyAction(acc, action, v);
            && r.text == acc.text + ActionText(action, v)
            && r.usage == acc.usage && r.error == acc.error && r.frameErrors == acc.frameErrors
  {
  }

  /** What one frame does to the scalar part of the accumulator. */
  lemma {:induction false} FrameTotals(p: Protocol, acc: Acc, data: string)
    ensures var r := FeedFrameOf(p, acc, data);
            && r.text == acc.text + FrameText(p, data)
            && r.error == Later(acc.error, FrameError(p, data))
            && (forall f :: FieldOf(r.usage, f) == Later(FieldOf(acc.usage, f), FieldOf(FrameReport(p, data), f)))
            && (r.usage.Some? <==> acc.usage.Some? || FrameReport(p, data).Some?)
            && r.frameErrors == acc.frameErrors + (if IsUnreadable(p, data) then 1 else 0)
  {
    match Parsed(p, data) {
      case None =>
      case Some(v) =>
        var marked := ErrorMarker(p, v);
        RulesText(if marked.Some? then acc.(error := marked) else acc, p.rules, v);
    }
  }

  ghost predicate UsageIsLatest(p: Protocol, frames: seq<string>, usage: Option<TurnUsage>, f: UsageField) {
    LatestIs(frames, FieldAt(p, f), FieldOf(usage, f))
  }

  lemma {:induction false} TextAndErrors(p: Protocol, frames: seq<string>)
    ensures var acc := FeedAllOf(p, EMPTY_ACC, frames);
            && acc.text == StreamText(p, frames) && acc.frameErrors == Unreadable(p, frames)
            && LatestIs(frames, ErrorAt(p), acc.error)
    decreases |frames|
  {
    if frames != [] {
      var init, data := frames[..|frames| - 1], frames[|frames| - 1];
      var acc := FeedAllOf(p, EMPTY_ACC, init);
      TextAndErrors(p, init);
      FrameTotals(p, acc, data);
      ErrorNext(p, frames, acc.error);
    }
  }

  lemma ErrorNext(p: Protocol, frames: seq<string>, error: Option<string>)
    requires frames != [] && LatestIs(frames[..|frames| - 1], ErrorAt(p), error)
    ensures LatestIs(frames, ErrorAt(p), Later(error, FrameError(p, frames[|frames| - 1])))
  {
    var init, data := frames[..|frames| - 1], frames[|frames| - 1];
    LatestSnoc(init, data, ErrorAt(p), error);
    assert init + [data] == frames;
  }

  lemma FieldNext(p: Protocol, frames: seq<string>, f: UsageField, value: Option<nat>)
    requires frames != [] && LatestIs(frames[..|frames| - 1], FieldAt(p, f), value)
    ensures LatestIs(frames, FieldAt(p, f), Later(value, FieldOf(FrameReport(p, frames[|frames| - 1]), f)))
  {
    var init, data := frames[..|frames| - 1], frames[|frames| - 1];
    LatestSnoc(init, data, FieldAt(p, f), value);
    assert init + [data] == frames;
  }

  predicate NoReport(p: Protocol, frames: seq<string>) {
    forall i | 0 <= i < |frames| :: FrameReport(p, frames[i]).None?
  }

  lemma NoReportNext(p: Protocol, frames: seq<string>)
    requires frames != []
    ensures NoReport(p, frames)
        <==> NoReport(p, frames[..|frames| - 1]) && FrameReport(p, frames[|frames| - 1]).None?
  {
    var init := frames[..|frames| - 1];
    assert forall i | 0 <= i < |init| :: init[i] == frames[i];
  }

  lemma {:induction false} UsageFields(p: Protocol, frames: seq<string>, f: UsageField)
    ensures var acc := FeedAllOf(p, EMPTY_ACC, frames);
            UsageIsLatest(p, frames, acc.usage, f) && (acc.usage.None? <==> NoReport(p, frames))
    decreases |frames|
  {
    if frames != [] {
      var init, data := frames[..|frames| - 1], frames[|frames| - 1];
      var acc := FeedAllOf(p, EMPTY_ACC, init);
      UsageFields(p, init, f);
      FrameTotals(p, acc, data);
      FieldNext(p, frames, f, FieldOf(acc.usage, f));
      NoReportNext(p, frames);
    }
  }

  /**
   The scalars recorded for a whole body: all matched text in frame and rule order, the last error
   marker, one count per unreadable frame, and for every usage field the latest report that names it.
   */
  lemma BodyTotals(p: Protocol, body: seq<byte>, f: UsageField)
    ensures var out, frames := WholeBody(p, body), FramesOf(DecodeLossy(body));
            && out.text == StreamText(p, frames)
            && LatestIs(frames, ErrorAt(p), out.error)
            && out.frameErrors == Unreadable(p, frames)
            && UsageIsLatest(p, frames, out.usage, f)
            && (out.usage.None? <==> NoReport(p, frames))
  {
    TextAndErrors(p, FramesOf(DecodeLossy(body)));
    UsageFields(p, FramesOf(DecodeLossy(body)), f);
  }

  // ---------------------------------------------------------------------------------------------
  // Tool calls delivered as finished items

  const RESPONSES_RULES := [
    SseRule("response.output_text.delta", None, None, Text(["delta"])),
    SseRule("response.output_item.done", None, None, ToolDone)
  ]

  predicate IsResponses(p: Protocol) {
    p.rules == RESPONSES_RULES && p.strategy.DoneItems?
  }

  predicate ItemActions(rules: seq<SseRule>) {
    forall i | 0 <= i < |rules| :: rules[i].action.Text? || rules[i].action.ToolDone?
  }

  lemma {:induction false} RulesItems(acc: Acc, rules: seq<SseRule>, v: Value)
    requires ItemActions(rules)
    ensures var r := ApplyRules(acc, rules, v.Get("type").AsStr(), v);
            r.tools == acc.tools + ItemsOf(rules, v) && r.pending == acc.pending
    decreases |rules|
  {
    if rules != [] {
      var n := |rules| - 1;
      RulesItems(acc, rules[..n], v);
      ActionItemsAdded(ApplyRules(acc, rules[..n], v.Get("type").AsStr(), v), rules[n].action, v);
    }
  }

  lemma ActionItemsAdded(acc: Acc, action: SseAction, v: Value)
    requires action.Text? || action.ToolDone?
    ensures var r := ApplyAction(acc, action, v);
            r.tools == acc.tools + ActionItems(action, v) && r.pending == acc.pending
  {
  }

  lemma {:induction false} FrameItemsAdded(p: Protocol, acc: Acc, data: string)
    requires ItemActions(p.rules)
    ensures var r := FeedFrameOf(p, acc, data);
            r.tools == acc.tools + FrameItems(p, data) && r.pending == acc.pending
  {
    match Parsed(p, data) {
      case None =>
      case Some(v) =>
        var marked := ErrorMarker(p, v);
        RulesItems(if marked.Some? then acc.(error := marked) else acc, p.rules, v);
    }
  }

  lemma {:induction false} ItemsFold(p: Protocol, frames: seq<string>)
    requires ItemActions(p.rules)
    ensures var acc := FeedAllOf(p, EMPTY_ACC, frames);
            acc.tools == StreamItems(p, frames) && acc.pending == None
    decreases |frames|
  {
    if frames != [] {
      var init := frames[..|frames| - 1];
      ItemsFold(p, init);
      FrameItemsAdded(p, FeedAllOf(p, EMPTY_ACC, init), frames[|frames| - 1]);
    }
  }

  /** Reference: the call that a frame finishes. */
  function FinishedCall(p: Protocol, data: string): seq<ToolCall> {
    match Parsed(p, data)
    case None => []
    case Some(v) =>
      var item := v.Get("item");
      if v.Get("type") == Str("response.output_item.done") && IsCallItem(item) then [DoneCall(item)] else []
  }

  function FinishedCalls(p: Protocol, frames: seq<string>): seq<ToolCall> {
    if frames == [] then []
    else FinishedCalls(p, frames[..|frames| - 1]) + FinishedCall(p, frames[|frames| - 1])
  }

  lemma ResponsesItem(p: Protocol, data: string)
    requires IsResponses(p)
    ensures FrameItems(p, data) == FinishedCall(p, data)
  {
    if Parsed(p, data).Some? { ItemRule(Parsed(p, data).value); }
  }

  lemma ItemRule(v: Value)
    ensures ItemsOf(RESPONSES_RULES, v)
         == if v.Get("type") == Str("response.output_item.done") then ActionItems(ToolDone, v) else []
  {
    var first := RESPONSES_RULES[..1];
    assert first[..0] == [] && first[0] == RESPONSES_RULES[0];
    assert ItemsOf(first[..0], v) == [];
    assert ItemsOf(first, v) == [];
  }

  lemma {:induction false} ResponsesItems(p: Protocol, frames: seq<string>)
    requires IsResponses(p)
    ensures StreamItems(p, frames) == FinishedCalls(p, frames)
    decreases |frames|
  {
    if frames != [] {
      ResponsesItems(p, frames[..|frames| - 1]);
      ResponsesItem(p, frames[|frames| - 1]);
    }
  }

  /** The tool calls of a responses body are the calls its frames finish, in arrival order. */
  lemma ResponsesBodyTools(p: Protocol, body: seq<byte>)
    requires IsResponses(p)
    ensures WholeBody(p, body).tools == FinishedCalls(p, FramesOf(DecodeLossy(body)))
  {
    ItemsFold(p, FramesOf(DecodeLossy(body)));
    ResponsesItems(p, FramesOf(DecodeLossy(body)));
  }
}

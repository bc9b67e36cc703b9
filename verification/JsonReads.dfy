/**
 What the engine reads from a JSON event, said on the fields of the event. A place in a value is a
 path of object names and array positions; nothing here uses the lookups of the engine.
 */
module JsonReads {
  import opened Prelude
  import opened Json
  import opened Engine
  import opened ToolCalls
  import opened Totals
  import WsTurns
  import Utf8

  datatype Place = Name(key: string) | Index(i: nat)

  /** What stands at a path, if the path leads anywhere. */
  function Member(v: Value, path: seq<Place>): Option<Value>
    decreases path
  {
    if path == [] then Some(v)
    else match path[0]
      case Name(key) => if v.Obj? && key in v.fields then Member(v.fields[key], path[1..]) else None
      case Index(i) => if v.Arr? && i < |v.items| then Member(v.items[i], path[1..]) else None
  }

  /** The string at a path, if there is one. */
  function TextAt(v: Value, path: seq<Place>): Option<string> {
    match Member(v, path)
    case Some(Str(s)) => Some(s)
    case _ => None
  }

  function TextOrEmpty(v: Value, path: seq<Place>): string {
    if TextAt(v, path).Some? then TextAt(v, path).value else ""
  }

  /** The unsigned integer at a path, else zero. */
  function NumberOrZero(v: Value, path: seq<Place>): nat {
    match Member(v, path)
    case Some(UInt(n)) => n
    case _ => 0
  }

  /** A value other than null at a path. */
  function PresentAt(v: Value, path: seq<Place>): Option<Value> {
    match Member(v, path)
    case None => None
    case Some(w) => if w == Null then None else Some(w)
  }

  const TYPE := [Name("type")]

  // ---------------------------------------------------------------------------------------------
  // Lookups

  /** One step of a lookup, by name: a miss and a value of another kind both read as null. */
  lemma GetReads(v: Value, key: string)
    ensures v.Get(key) == match Member(v, [Name(key)]) case Some(w) => w case None => Null
  {
    assert [Name(key)][1..] == [];
  }

  lemma MemberOne(v: Value, key: string)
    ensures Member(v, [Name(key)]) == if v.Obj? && key in v.fields then Some(v.fields[key]) else None
  {
    assert [Name(key)][1..] == [];
  }

  lemma MemberTwo(v: Value, a: string, b: string)
    ensures Member(v, [Name(a), Name(b)])
         == if v.Obj? && a in v.fields then Member(v.fields[a], [Name(b)]) else None
  {
    assert [Name(a), Name(b)][1..] == [Name(b)];
  }

  lemma GetOne(v: Value, key: string)
    ensures v.Get(key).AsStr() == TextAt(v, [Name(key)])
    ensures v.Get(key).StrOrEmpty() == TextOrEmpty(v, [Name(key)])
    ensures v.Get(key).IndexOrZero() == NumberOrZero(v, [Name(key)])
    ensures forall s :: v.Get(key) == Str(s) <==> TextAt(v, [Name(key)]) == Some(s)
    ensures (if v.Get(key) == Null then None else Some(v.Get(key))) == PresentAt(v, [Name(key)])
  {
    GetReads(v, key);
  }

  lemma GetTwo(v: Value, a: string, b: string)
    ensures v.Get(a).Get(b).AsStr() == TextAt(v, [Name(a), Name(b)])
    ensures v.Get(a).Get(b).StrOrEmpty() == TextOrEmpty(v, [Name(a), Name(b)])
    ensures forall s :: v.Get(a).Get(b) == Str(s) <==> TextAt(v, [Name(a), Name(b)]) == Some(s)
    ensures (if v.Get(a).Get(b) == Null then None else Some(v.Get(a).Get(b))) == PresentAt(v, [Name(a), Name(b)])
  {
    MemberTwo(v, a, b);
    MemberOne(v.Get(a), b);
    if v.Obj? && a in v.fields { MemberOne(v.fields[a], b); }
  }

  /** `resolve_path`, step by step: names lead into objects, decimal numbers into arrays. */
  lemma ResolveSteps(v: Value, key: string, rest: seq<string>)
    ensures ResolvePath(v, []) == v
    ensures v.Obj? ==>
              ResolvePath(v, [key] + rest)
              == if key in v.fields then ResolvePath(v.fields[key], rest) else ResolvePath(Null, rest)
    ensures !v.Obj? && !v.Arr? ==> ResolvePath(v, [key] + rest) == ResolvePath(Null, rest)
  {
    assert ([key] + rest)[1..] == rest;
  }

  lemma {:induction false} ResolveNull(path: seq<string>)
    ensures ResolvePath(Null, path) == Null
  {
    if path != [] { ResolveNull(path[1..]); }
  }

  lemma ResolveIndex(items: seq<Value>, i: nat, rest: seq<string>)
    ensures ResolvePath(Arr(items), [Decimal(i)] + rest)
         == if i < |items| then ResolvePath(items[i], rest) else Null
    ensures ResolvePath(Arr(items), ["+" + Decimal(i)] + rest)
         == if i < |items| then ResolvePath(items[i], rest) else Null
  {
    DecimalReadsBack(i);
    assert ([Decimal(i)] + rest)[1..] == rest && (["+" + Decimal(i)] + rest)[1..] == rest;
    assert ("+" + Decimal(i))[1..] == Decimal(i);
    ResolveNull(rest);
    DecimalNotEmpty(i);
  }

  lemma DecimalNotEmpty(i: nat)
    ensures Decimal(i) != "" && Decimal(i)[0] != '+'
  {
    DecimalReadsBack(i);
    if i >= 10 { assert |Decimal(i)| >= 1; }
  }

  /** Under a key that is not a number an array holds nothing. */
  lemma ResolveNotANumber(items: seq<Value>, key: string, rest: seq<string>)
    requires key == "" || !AllDigits(if key[0] == '+' then key[1..] else key)
    ensures ResolvePath(Arr(items), [key] + rest) == Null
  {
    assert ([key] + rest)[1..] == rest;
    ResolveNull(rest);
  }

  lemma ResolveOne(v: Value, a: string)
    requires ParseIndex(a).None?
    ensures ResolvePath(v, [a]) == v.Get(a)
  {
    assert [a][1..] == [];
  }

  lemma ResolveTwo(v: Value, a: string, b: string)
    requires ParseIndex(a).None? && ParseIndex(b).None?
    ensures ResolvePath(v, [a, b]) == v.Get(a).Get(b)
  {
    assert [a, b][1..] == [b];
    ResolveOne(v.Get(a), b);
  }

  lemma NotIndices()
    ensures ParseIndex("usage").None? && ParseIndex("message").None? && ParseIndex("response").None?
    ensures ParseIndex("delta").None? && ParseIndex("text").None?
  {
    assert !('0' <= "usage"[0] <= '9') && !('0' <= "message"[0] <= '9') && !('0' <= "response"[0] <= '9');
    assert !('0' <= "delta"[0] <= '9') && !('0' <= "text"[0] <= '9');
  }

  // ---------------------------------------------------------------------------------------------
  // Tool calls

  /** A chunk is its index, and its name and argument fragment where these are strings. */
  lemma ChunkReads(tc: Value)
    ensures ChunkOf(tc) == Chunk(
              NumberOrZero(tc, [Name("index")]),
              TextAt(tc, [Name("function"), Name("name")]),
              TextAt(tc, [Name("function"), Name("arguments")]))
  {
    GetOne(tc, "index");
    GetTwo(tc, "function", "name");
    GetTwo(tc, "function", "arguments");
  }

  const DELTA_CALLS := [Name("choices"), Index(0), Name("delta"), Name("tool_calls")]

  /** The chunks of a chat event are the elements of `choices[0].delta.tool_calls`. */
  lemma ChunkArrayReads(v: Value)
    ensures ChunkArray(v) == match Member(v, DELTA_CALLS) case Some(Arr(items)) => items case _ => []
  {
    assert DELTA_CALLS[1..] == [Index(0), Name("delta"), Name("tool_calls")];
    assert DELTA_CALLS[1..][1..] == [Name("delta"), Name("tool_calls")];
    var choice := v.Get("choices").At(0);
    MemberTwo(choice, "delta", "tool_calls");
    GetReads(choice.Get("delta"), "tool_calls");
    MemberOne(choice.Get("delta"), "tool_calls");
    if choice.Obj? && "delta" in choice.fields { MemberOne(choice.fields["delta"], "tool_calls"); }
  }

  /** A finished call is its name and its arguments, or its input where it has no arguments. */
  lemma DoneCallReads(item: Value)
    ensures DoneCall(item) == ToolCall(
              TextOrEmpty(item, [Name("name")]),
              if TextAt(item, [Name("arguments")]).Some? then TextOrEmpty(item, [Name("arguments")])
              else TextOrEmpty(item, [Name("input")]))
  {
    GetOne(item, "name");
    GetOne(item, "arguments");
    GetOne(item, "input");
  }

  /** Which events of an Anthropic stream open, extend and close a tool block. */
  lemma AnthropicEventReads(v: Value)
    ensures EventOf(v)
         == if TextAt(v, TYPE) == Some("content_block_start")
               && TextAt(v, [Name("content_block"), Name("type")]) == Some("tool_use")
            then Open(NumberOrZero(v, [Name("index")]), TextOrEmpty(v, [Name("content_block"), Name("name")]))
            else if TextAt(v, TYPE) == Some("content_block_delta")
               && TextAt(v, [Name("delta"), Name("type")]) == Some("input_json_delta")
               && TextAt(v, [Name("delta"), Name("partial_json")]).Some?
            then Arg(NumberOrZero(v, [Name("index")]), TextOrEmpty(v, [Name("delta"), Name("partial_json")]))
            else if TextAt(v, TYPE) == Some("content_block_stop")
            then Close(NumberOrZero(v, [Name("index")]))
            else Quiet
  {
    GetOne(v, "type");
    GetOne(v, "index");
    GetTwo(v, "content_block", "type");
    GetTwo(v, "content_block", "name");
    GetTwo(v, "delta", "type");
    GetTwo(v, "delta", "partial_json");
  }

  // ---------------------------------------------------------------------------------------------
  // Rules, text, errors, usage

  /** When a rule matches an event: its trigger, and its two optional type gates. */
  lemma RuleMatchReads(rule: SseRule, v: Value)
    ensures MatchesRule(rule, v.Get("type").AsStr(), v) <==>
              && (rule.on == "*" || TextAt(v, TYPE) == Some(rule.on))
              && (rule.dataType.Some? ==> TextAt(v, TYPE) == rule.dataType)
              && (rule.deltaType.Some? ==> TextAt(v, [Name("delta"), Name("type")]) == rule.deltaType)
  {
    GetOne(v, "type");
    GetTwo(v, "delta", "type");
  }

  /** Where the text path of the chat table finds the first choice: in an array, or under the name 0. */
  function FirstChoice(v: Value): Place {
    match Member(v, [Name("choices")])
    case Some(Obj(_)) => Name("0")
    case _ => Index(0)
  }

  /** The text of a chat event is `choices[0].delta.content`. */
  lemma ChatTextReads(v: Value)
    ensures TextOf(CHAT_RULES, v)
         == TextOrEmpty(v, [Name("choices"), FirstChoice(v), Name("delta"), Name("content")])
  {
    ChatRulesText(v);
    ContentPath(v);
  }

  lemma ChatRulesText(v: Value)
    ensures TextOf(CHAT_RULES, v) == ActionText(Text(["choices", "0", "delta", "content"]), v)
  {
    TextTail(CHAT_RULES, 1, v);
    TextOfOne(CHAT_RULES[..1], v);
  }

  lemma MemberDown(v: Value, place: Place, rest: seq<Place>)
    ensures Member(v, [place] + rest)
         == match Member(v, [place]) case None => None case Some(w) => Member(w, rest)
  {
    assert ([place] + rest)[1..] == rest && [place][1..] == [];
  }

  function ValueOrNull(v: Option<Value>): Value {
    if v.Some? then v.value else Null
  }

  lemma {:induction false} MemberOfNull(path: seq<Place>)
    requires path != []
    ensures Member(Null, path) == None
  {
  }

  /** Reading text below a place, whether or not there is anything at the place. */
  lemma TextBelow(v: Value, place: Place, rest: seq<Place>)
    requires rest != []
    ensures TextOrEmpty(v, [place] + rest) == TextOrEmpty(ValueOrNull(Member(v, [place])), rest)
  {
    MemberDown(v, place, rest);
    MemberOfNull(rest);
  }

  lemma StepName(v: Value, key: string, rest: seq<string>)
    requires ParseIndex(key).None?
    ensures ResolvePath(v, [key] + rest) == ResolvePath(ValueOrNull(Member(v, [Name(key)])), rest)
  {
    assert ([key] + rest)[1..] == rest;
    GetReads(v, key);
  }

  lemma StepZero(c: Value, rest: seq<string>)
    ensures ResolvePath(c, ["0"] + rest)
         == ResolvePath(ValueOrNull(Member(c, [if c.Obj? then Name("0") else Index(0)])), rest)
  {
    assert (["0"] + rest)[1..] == rest;
    assert AllDigits("0") && DigitsValue("0") == 0 by {
      DecimalReadsBack(0);
      assert Decimal(0) == "0";
    }
    GetReads(c, "0");
  }

  lemma ContentPath(v: Value)
    ensures ResolvePath(v, ["choices", "0", "delta", "content"]).StrOrEmpty()
         == TextOrEmpty(v, [Name("choices"), FirstChoice(v), Name("delta"), Name("content")])
  {
    assert !('0' <= "choices"[0] <= '9') && ParseIndex("choices").None?;
    var c := ValueOrNull(Member(v, [Name("choices")]));
    assert ["choices", "0", "delta", "content"] == ["choices"] + ["0", "delta", "content"];
    StepName(v, "choices", ["0", "delta", "content"]);
    assert ["0", "delta", "content"] == ["0"] + ["delta", "content"];
    StepZero(c, ["delta", "content"]);
    assert FirstChoice(v) == if c.Obj? then Name("0") else Index(0);
    var below := [Name("delta"), Name("content")];
    var places := [Name("choices"), FirstChoice(v), Name("delta"), Name("content")];
    assert places == [Name("choices")] + ([FirstChoice(v)] + below);
    TextBelow(v, Name("choices"), [FirstChoice(v)] + below);
    TextBelow(c, FirstChoice(v), below);
    ContentOfChoice(ValueOrNull(Member(c, [FirstChoice(v)])));
  }

  lemma ContentOfChoice(choice: Value)
    ensures ResolvePath(choice, ["delta", "content"]).StrOrEmpty()
         == TextOrEmpty(choice, [Name("delta"), Name("content")])
  {
    NotIndices();
    assert !('0' <= "content"[0] <= '9');
    ResolveTwo(choice, "delta", "content");
    GetTwo(choice, "delta", "content");
  }

  /** The text of an Anthropic event is `delta.text` of a text delta. */
  lemma AnthropicTextReads(v: Value)
    ensures TextOf(ANTHROPIC_RULES, v)
         == if TextAt(v, TYPE) == Some("content_block_delta")
               && TextAt(v, [Name("delta"), Name("type")]) == Some("text_delta")
            then TextOrEmpty(v, [Name("delta"), Name("text")]) else ""
  {
    TextTail(ANTHROPIC_RULES, 1, v);
    TextOfOne(ANTHROPIC_RULES[..1], v);
    RuleMatchReads(ANTHROPIC_RULES[0], v);
    NotIndices();
    ResolveTwo(v, "delta", "text");
    GetTwo(v, "delta", "text");
  }

  lemma TextOfOne(rules: seq<SseRule>, v: Value)
    requires |rules| == 1
    ensures TextOf(rules, v)
         == if MatchesRule(rules[0], v.Get("type").AsStr(), v) then ActionText(rules[0].action, v) else ""
  {
    assert rules[..0] == [] && TextOf(rules[..0], v) == "";
  }

  /** Rules behind the first `n` that extract no text add none. */
  lemma {:induction false} TextTail(rules: seq<SseRule>, n: nat, v: Value)
    requires n <= |rules| && forall i | n <= i < |rules| :: !rules[i].action.Text?
    ensures TextOf(rules, v) == TextOf(rules[..n], v)
    decreases |rules|
  {
    if n == |rules| {
      assert rules[..n] == rules;
    } else {
      var init := rules[..|rules| - 1];
      TextTail(init, n, v);
      assert init[..n] == rules[..n];
    }
  }

  /** The text of a responses event is the `delta` of an output-text delta. */
  lemma ResponsesTextReads(v: Value)
    ensures TextOf(RESPONSES_RULES, v)
         == if TextAt(v, TYPE) == Some("response.output_text.delta") then TextOrEmpty(v, [Name("delta")]) else ""
  {
    TextTail(RESPONSES_RULES, 1, v);
    TextOfOne(RESPONSES_RULES[..1], v);
    RuleMatchReads(RESPONSES_RULES[0], v);
    NotIndices();
    ResolveOne(v, "delta");
    GetOne(v, "delta");
  }

  /** Which events mark a turn as failed, protocol by protocol, and what is kept of them. */
  lemma ErrorReads(p: Protocol, v: Value)
    ensures ErrorMarker(p, v)
         == if p.name in ["openai.responses", "openai.live"]
               && (TextAt(v, TYPE) == Some("response.failed") || TextAt(v, TYPE) == Some("response.incomplete"))
            then Some(p.render(ValueOrNull(Member(v, [Name("response"), Name("error")]))))
            else if p.name == "anthropic.messages" && TextAt(v, TYPE) == Some("error")
            then Some(p.render(ValueOrNull(Member(v, [Name("error")]))))
            else None
  {
    GetOne(v, "type");
    GetReads(v, "error");
    GetReads(v, "response");
    GetReads(v.Get("response"), "error");
    MemberTwo(v, "response", "error");
    MemberOne(v, "response");
    MemberOfNull([Name("error")]);
  }

  const CHAT_USAGE := [UsageFrame(None, ["usage"])]
  const RESPONSES_USAGE := [UsageFrame(Some("response.completed"), ["response", "usage"])]
  const ANTHROPIC_USAGE := [
    UsageFrame(Some("message_start"), ["message", "usage"]), UsageFrame(Some("message_delta"), ["usage"])]

  function Report(p: Protocol, v: Option<Value>): Option<TurnUsage> {
    if v.None? then None else Some(p.readUsage(v.value))
  }

  /** Any chat event with a `usage` that is not null reports it. */
  lemma ChatUsageReads(p: Protocol, v: Value)
    ensures UsageFromFrame(p, CHAT_USAGE, v) == Report(p, PresentAt(v, [Name("usage")]))
  {
    NotIndices();
    ResolveOne(v, "usage");
    GetOne(v, "usage");
    assert CHAT_USAGE[1..] == [];
  }

  /** A `response.completed` event reports its `response.usage`. */
  lemma ResponsesUsageReads(p: Protocol, v: Value)
    ensures UsageFromFrame(p, RESPONSES_USAGE, v)
         == if TextAt(v, TYPE) == Some("response.completed")
            then Report(p, PresentAt(v, [Name("response"), Name("usage")])) else None
  {
    NotIndices();
    ResolveTwo(v, "response", "usage");
    GetOne(v, "type");
    GetTwo(v, "response", "usage");
    assert RESPONSES_USAGE[1..] == [];
  }

  /** A `message_start` reports its `message.usage`, a `message_delta` its `usage`. */
  lemma AnthropicUsageReads(p: Protocol, v: Value)
    ensures UsageFromFrame(p, ANTHROPIC_USAGE, v)
         == if TextAt(v, TYPE) == Some("message_start")
            then Report(p, PresentAt(v, [Name("message"), Name("usage")]))
            else if TextAt(v, TYPE) == Some("message_delta") then Report(p, PresentAt(v, [Name("usage")]))
            else None
  {
    NotIndices();
    ResolveTwo(v, "message", "usage");
    ResolveOne(v, "usage");
    GetOne(v, "type");
    GetOne(v, "usage");
    GetTwo(v, "message", "usage");
    UsageHead(p, ANTHROPIC_USAGE, v);
    UsageHead(p, ANTHROPIC_USAGE[1..], v);
    assert ANTHROPIC_USAGE[1..][1..] == [];
  }

  lemma {:induction false} UsageHead(p: Protocol, frames: seq<UsageFrame>, v: Value)
    requires frames != []
    ensures UsageFromFrame(p, frames, v)
         == if (frames[0].onEvent.None? || v.Get("type").AsStr() == frames[0].onEvent)
               && ResolvePath(v, frames[0].objPath) != Null
            then Some(p.readUsage(ResolvePath(v, frames[0].objPath)))
            else UsageFromFrame(p, frames[1..], v)
  {
  }

  // ---------------------------------------------------------------------------------------------
  // Furniture

  /** The 25 characters Unicode counts as white space. */
  const WHITE := "\t\n\U{0B}\U{0C}\r \U{85}\U{A0}\U{1680}\U{2000}\U{2001}\U{2002}\U{2003}\U{2004}\U{2005}\U{2006}\U{2007}\U{2008}\U{2009}\U{200A}\U{2028}\U{2029}\U{202F}\U{205F}\U{3000}"

  lemma WhiteIs(c: char)
    ensures IsWhitespace(c) <==> c in WHITE
  {
  }

  predicate AllWhite(s: string) {
    forall i | 0 <= i < |s| :: IsWhitespace(s[i])
  }

  lemma {:induction false} TrimStartSplits(s: string) returns (a: string)
    ensures AllWhite(a) && s == a + TrimStart(s)
  {
    if s != "" && IsWhitespace(s[0]) {
      a := TrimStartSplits(s[1..]);
      Assoc([s[0]], a, TrimStart(s[1..]));
      a := [s[0]] + a;
    } else {
      a := "";
    }
  }

  lemma {:induction false} TrimEndSplits(s: string) returns (b: string)
    ensures AllWhite(b) && s == TrimEnd(s) + b
  {
    if s != "" && IsWhitespace(s[|s| - 1]) {
      var n := |s| - 1;
      b := TrimEndSplits(s[..n]);
      Assoc(TrimEnd(s[..n]), b, [s[n]]);
      b := b + [s[n]];
    } else {
      b := "";
    }
  }

  lemma {:induction false} TrimStartOver(a: string, s: string)
    requires AllWhite(a)
    ensures TrimStart(a + s) == TrimStart(s)
  {
    if a == "" {
      assert a + s == s;
    } else {
      assert (a + s)[1..] == a[1..] + s;
      TrimStartOver(a[1..], s);
    }
  }

  lemma {:induction false} TrimEndOver(s: string, b: string)
    requires AllWhite(b)
    ensures TrimEnd(s + b) == TrimEnd(s)
    decreases |b|
  {
    if b == "" {
      assert s + b == s;
    } else {
      var n := |b| - 1;
      assert (s + b)[..|s + b| - 1] == s + b[..n];
      TrimEndOver(s, b[..n]);
    }
  }

  /** The frame is white space around nothing, or around the sentinel. */
  ghost predicate WhiteAround(data: string, core: string) {
    exists a, b :: AllWhite(a) && AllWhite(b) && data == a + core + b
  }

  lemma TrimAround(a: string, core: string, b: string)
    requires AllWhite(a) && AllWhite(b) && (core == "" || core == "[DONE]")
    ensures TrimEnd(TrimStart(a + core + b)) == core
  {
    Assoc(a, core, b);
    TrimStartOver(a, core + b);
    if core == "" {
      assert core + b == b + "";
      TrimStartOver(b, "");
    } else {
      assert (core + b)[0] == '[' && !IsWhitespace('[');
      TrimEndOver(core, b);
      assert core[5] == ']' && !IsWhitespace(']');
    }
  }

  /** Skipped frames are exactly white space, and white space around `[DONE]`. */
  lemma FurnitureReads(data: string)
    ensures IsFurniture(data) <==> WhiteAround(data, "") || WhiteAround(data, "[DONE]")
  {
    if IsFurniture(data) {
      var a := TrimStartSplits(data);
      var b := TrimEndSplits(TrimStart(data));
      Assoc(a, TrimEnd(TrimStart(data)), b);
      assert data == a + TrimEnd(TrimStart(data)) + b;
    }
    forall core, a, b | (core == "" || core == "[DONE]") && AllWhite(a) && AllWhite(b) && data == a + core + b
      ensures IsFurniture(data)
    {
      TrimAround(a, core, b);
    }
  }

  // ---------------------------------------------------------------------------------------------
  // WebSocket events

  /** What a server event of a live connection means, by its type. */
  lemma LiveServerReads(lib: WsTurns.Library, v: Value)
    ensures WsTurns.ServerMeaning(lib, v)
         == if TextAt(v, TYPE) == Some("response.output_item.done")
               && TextAt(v, [Name("item"), Name("type")]) == Some("function_call")
            then WsTurns.Tool(ToolCall(
                   TextOrEmpty(v, [Name("item"), Name("name")]), TextOrEmpty(v, [Name("item"), Name("arguments")])))
            else if TextAt(v, TYPE) == Some("response.audio_transcript.delta")
            then WsTurns.Delta(TextOrEmpty(v, [Name("delta")]))
            else if TextAt(v, TYPE) == Some("response.done")
            then WsTurns.DoneFrame(
                   match PresentAt(v, [Name("response"), Name("usage")])
                   case None => None case Some(u) => Some(lib.readUsage(u)))
            else WsTurns.Nothing
  {
    LiveKinds(v);
    LiveTool(v);
    GetOne(v, "delta");
    NotIndices();
    ResolveTwo(v, "response", "usage");
    GetTwo(v, "response", "usage");
  }

  lemma LiveKinds(v: Value)
    ensures v.Get("type") == Str("response.output_item.done") <==> TextAt(v, TYPE) == Some("response.output_item.done")
    ensures v.Get("type") == Str("response.audio_transcript.delta")
            <==> TextAt(v, TYPE) == Some("response.audio_transcript.delta")
    ensures v.Get("type") == Str("response.done") <==> TextAt(v, TYPE) == Some("response.done")
  {
    GetOne(v, "type");
  }

  lemma LiveTool(v: Value)
    ensures v.Get("item").Get("type") == Str("function_call")
            <==> TextAt(v, [Name("item"), Name("type")]) == Some("function_call")
    ensures ToolCall(v.Get("item").Get("name").StrOrEmpty(), v.Get("item").Get("arguments").StrOrEmpty())
         == ToolCall(TextOrEmpty(v, [Name("item"), Name("name")]), TextOrEmpty(v, [Name("item"), Name("arguments")]))
  {
    GetTwo(v, "item", "type");
    GetTwo(v, "item", "name");
    GetTwo(v, "item", "arguments");
  }

  /** The only client event with a meaning is `response.create`. */
  lemma LiveClientReads(lib: WsTurns.Library, payload: seq<byte>)
    ensures WsTurns.MeaningOf(lib, WsTurns.Client(payload))
         == match lib.parse(payload)
            case None => WsTurns.Nothing
            case Some(v) =>
              if TextAt(v, TYPE) == Some("response.create") then WsTurns.Create(v) else WsTurns.Nothing
  {
    if lib.parse(payload).Some? { GetOne(lib.parse(payload).value, "type"); }
  }

  /** A turn opens with the create frame verbatim, its session, its model and its user. */
  lemma LiveOpeningReads(lib: WsTurns.Library, payload: seq<byte>, v: Value)
    requires lib.parse(payload) == Some(v)
    ensures var text := Utf8.DecodeLossy(payload);
            WsTurns.OpenedWith(lib, Some(WsTurns.Client(payload))) == WsTurns.Turn(
              Some(text), TextOrEmpty(v, [Name("client_metadata"), Name("session_id")]), None, "", [],
              text, "", TextOrEmpty(v, [Name("model")]), lib.endUser(v))
  {
    GetOne(v, "model");
    GetTwo(v, "client_metadata", "session_id");
  }
}

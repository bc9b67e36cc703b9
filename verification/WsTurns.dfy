/**
 Turn assembly on a WebSocket connection: client and server frames interleave freely, a
 `response.create` opens a turn, a `response.done` closes it and yields its record.
 */
module WsTurns {
  import opened Prelude
  import opened Utf8
  import opened Json
  import Engine

  type ToolCall = Engine.ToolCall
  type TurnUsage = Engine.TurnUsage

  /** Library code: the JSON parser over bytes, the end-user lookup, the token reader. */
  datatype Library = Library(
    parse: seq<byte> -> Option<Value>, endUser: Value -> string, readUsage: Value -> TurnUsage)

  datatype Event = Client(payload: seq<byte>) | Server(payload: seq<byte>)

  datatype Turn = Turn(
    input: Option<string>, sessionId: string, usage: Option<TurnUsage>, output: string,
    toolCalls: seq<ToolCall>, rawRequest: string, rawResponse: string, modelName: string, userId: string)

  const NO_TURN := Turn(None, "", None, "", [], "", "", "", "")

  datatype Record = Record(
    sessionId: string, sessionSource: string, userInput: string, finalOutput: string, rawRequest: string,
    rawResponse: string, toolCalls: seq<ToolCall>, usage: Option<TurnUsage>, modelName: string, userId: string)

  // ---------------------------------------------------------------------------------------------
  // What a frame means

  datatype Meaning =
    | Create(v: Value)
    | Delta(text: string)
    | Tool(call: ToolCall)
    | DoneFrame(usage: Option<TurnUsage>)
    | Nothing

  function ServerMeaning(lib: Library, v: Value): Meaning {
    var kind, item := v.Get("type"), v.Get("item");
    if kind == Str("response.output_item.done") && item.Get("type") == Str("function_call") then
      Tool(Engine.ToolCall(item.Get("name").StrOrEmpty(), item.Get("arguments").StrOrEmpty()))
    else if kind == Str("response.audio_transcript.delta") then Delta(v.Get("delta").StrOrEmpty())
    else if kind == Str("response.done") then
      var usage := ResolvePath(v, ["response", "usage"]);
      DoneFrame(if usage == Null then None else Some(lib.readUsage(usage)))
    else Nothing
  }

  function MeaningOf(lib: Library, e: Event): Meaning {
    match lib.parse(e.payload)
    case None => Nothing
    case Some(v) =>
      if e.Server? then ServerMeaning(lib, v)
      else if v.Get("type") == Str("response.create") then Create(v)
      else Nothing
  }

  function RawLine(e: Event): string {
    DecodeLossy(e.payload) + "\n"
  }

  // ---------------------------------------------------------------------------------------------
  // Reference: what belongs to a turn is read off the event history

  predicate IsBoundary(m: Meaning) {
    m.Create? || m.DoneFrame?
  }

  /** Events since the last turn boundary. */
  function Window(lib: Library, history: seq<Event>): seq<Event> {
    if history == [] || IsBoundary(MeaningOf(lib, history[|history| - 1])) then []
    else Window(lib, history[..|history| - 1]) + [history[|history| - 1]]
  }

  /** The latest create since the last done. */
  function Opening(lib: Library, history: seq<Event>): Option<Event> {
    if history == [] then None
    else
      var last := history[|history| - 1];
      match MeaningOf(lib, last)
      case Create(_) => Some(last)
      case DoneFrame(_) => None
      case _ => Opening(lib, history[..|history| - 1])
  }

  function Deltas(lib: Library, events: seq<Event>): string {
    if events == [] then ""
    else
      var m := MeaningOf(lib, events[|events| - 1]);
      Deltas(lib, events[..|events| - 1]) + (if m.Delta? then m.text else "")
  }

  function Tools(lib: Library, events: seq<Event>): seq<ToolCall> {
    if events == [] then []
    else
      var m := MeaningOf(lib, events[|events| - 1]);
      Tools(lib, events[..|events| - 1]) + (if m.Tool? then [m.call] else [])
  }

  function RawServer(events: seq<Event>): string {
    if events == [] then ""
    else
      var last := events[|events| - 1];
      RawServer(events[..|events| - 1]) + (if last.Server? then RawLine(last) else "")
  }

  function OpenedWith(lib: Library, opening: Option<Event>): Turn {
    if opening.None? then NO_TURN
    else
      var text := DecodeLossy(opening.value.payload);
      match lib.parse(opening.value.payload)
      case None => NO_TURN
      case Some(v) =>
        NO_TURN.(
          input := Some(text), rawRequest := text,
          sessionId := v.Get("client_metadata").Get("session_id").StrOrEmpty(),
          modelName := v.Get("model").StrOrEmpty(), userId := lib.endUser(v))
  }

  /** The turn in progress after a history, read off that history alone. */
  function TurnOf(lib: Library, history: seq<Event>): Turn {
    var window := Window(lib, history);
    OpenedWith(lib, Opening(lib, history)).(
      output := Deltas(lib, window), toolCalls := Tools(lib, window), rawResponse := RawServer(window))
  }

  /** The record of a turn. */
  function RecordOf(t: Turn): Record {
    Record(
      t.sessionId, if t.sessionId == "" then "" else "body:client_metadata.session_id",
      if t.input.Some? then t.input.value else "", t.output, t.rawRequest, t.rawResponse,
      t.toolCalls, t.usage, t.modelName, t.userId)
  }

  // ---------------------------------------------------------------------------------------------
  // The turn state in place

  class WsTurnState {
    var input: Option<string>
    var sessionId: string
    var usage: Option<TurnUsage>
    var output: string
    var toolCalls: seq<ToolCall>
    var rawRequest: string
    var rawResponse: string
    var modelName: string
    var userId: string

    constructor ()
      ensures View() == NO_TURN
    {
      input, sessionId, usage, output, toolCalls := None, "", None, "", [];
      rawRequest, rawResponse, modelName, userId := "", "", "", "";
    }

    function View(): Turn
      reads this
    {
      Turn(input, sessionId, usage, output, toolCalls, rawRequest, rawResponse, modelName, userId)
    }

    /** `apply_client_frame`. */
    method ApplyClientFrame(lib: Library, payload: seq<byte>)
      modifies this
      ensures View() == StepOf(lib, old(View()), Client(payload)).turn
    {
      var v := lib.parse(payload);
      if v.Some? && v.value.Get("type") == Str("response.create") {
        var text := DecodeLossy(payload);
        input := Some(text);
        rawRequest := text;
        rawResponse := "";
        sessionId := v.value.Get("client_metadata").Get("session_id").StrOrEmpty();
        modelName := v.value.Get("model").StrOrEmpty();
        userId := lib.endUser(v.value);
        output := "";
        toolCalls := [];
      }
    }

    /** `apply_server_frame`. */
    method ApplyServerFrame(lib: Library, payload: seq<byte>) returns (record: Option<Record>)
      modifies this
      ensures Step(View(), record) == StepOf(lib, old(View()), Server(payload))
    {
      rawResponse := rawResponse + (DecodeLossy(payload) + "\n");
      record := None;
      var v := lib.parse(payload);
      if v.None? { return; }
      var kind, item := v.value.Get("type"), v.value.Get("item");
      if kind == Str("response.output_item.done") && item.Get("type") == Str("function_call") {
        toolCalls := toolCalls + [Engine.ToolCall(item.Get("name").StrOrEmpty(), item.Get("arguments").StrOrEmpty())];
      } else if kind == Str("response.audio_transcript.delta") {
        output := output + v.value.Get("delta").StrOrEmpty();
      } else if kind == Str("response.done") {
        var r := EndTurn(lib, ResolvePath(v.value, ["response", "usage"]));
        record := Some(r);
      }
    }

    /** The `response.done` arm. */
    method EndTurn(lib: Library, reported: Value) returns (record: Record)
      modifies this
      ensures View() == NO_TURN
      ensures record == RecordOf(
                if reported == Null then old(View()) else old(View()).(usage := Some(lib.readUsage(reported))))
    {
      if reported != Null { usage := Some(lib.readUsage(reported)); }
      record := TakeRecord();
    }

    /** `take_record`: hand the turn over and leave nothing behind. */
    method TakeRecord() returns (record: Record)
      modifies this
      ensures record == RecordOf(old(View())) && View() == NO_TURN
    {
      record := RecordOf(View());
      input, sessionId, usage, output, toolCalls := None, "", None, "", [];
      rawRequest, rawResponse, modelName, userId := "", "", "", "";
    }
  }

  // ---------------------------------------------------------------------------------------------
  // Every interleaving

  datatype Step = Step(turn: Turn, record: Option<Record>)

  function StepOf(lib: Library, t: Turn, e: Event): Step {
    if e.Client? then
      match MeaningOf(lib, e)
      case Create(v) => Step(OpenedWith(lib, Some(e)).(usage := t.usage), None)
      case _ => Step(t, None)
    else
      var heard := t.(rawResponse := t.rawResponse + RawLine(e));
      match MeaningOf(lib, e)
      case Tool(call) => Step(heard.(toolCalls := t.toolCalls + [call]), None)
      case Delta(text) => Step(heard.(output := t.output + text), None)
      case DoneFrame(usage) =>
        Step(NO_TURN, Some(RecordOf(heard.(usage := if usage.Some? then usage else t.usage))))
      case _ => Step(heard, None)
  }

  function StateAfter(lib: Library, history: seq<Event>): Turn {
    if history == [] then NO_TURN
    else StepOf(lib, StateAfter(lib, history[..|history| - 1]), history[|history| - 1]).turn
  }

  /** At every moment the state is the reference turn: nothing leaks from before the last boundary. */
  lemma {:induction false} StateIsTurn(lib: Library, history: seq<Event>)
    ensures StateAfter(lib, history) == TurnOf(lib, history)
    decreases |history|
  {
    if history != [] {
      var init, e := history[..|history| - 1], history[|history| - 1];
      StateIsTurn(lib, init);
      TurnStep(lib, history, init, e);
    }
  }

  lemma WindowSnoc(lib: Library, w: seq<Event>, e: Event)
    ensures Deltas(lib, w + [e]) == Deltas(lib, w) + (var m := MeaningOf(lib, e); if m.Delta? then m.text else "")
    ensures Tools(lib, w + [e]) == Tools(lib, w) + (var m := MeaningOf(lib, e); if m.Tool? then [m.call] else [])
    ensures RawServer(w + [e]) == RawServer(w) + (if e.Server? then RawLine(e) else "")
  {
    assert (w + [e])[..|w|] == w;
  }

  /** One event moves the turn read off the history as it moves the state. */
  lemma TurnStep(lib: Library, history: seq<Event>, init: seq<Event>, e: Event)
    requires history != [] && init == history[..|history| - 1] && e == history[|history| - 1]
    ensures TurnOf(lib, history) == StepOf(lib, TurnOf(lib, init), e).turn
  {
    if !IsBoundary(MeaningOf(lib, e)) { WindowSnoc(lib, Window(lib, init), e); }
  }

  /**
   Every record, for every interleaving, holds exactly the deltas, tool calls and raw server frames
   since the last boundary (the closing frame included), the usage of that frame alone, and the
   request, session, model and user of the latest create since the last done, or nothing.
   */
  lemma RecordHoldsItsTurn(lib: Library, history: seq<Event>, done: Event)
    requires done.Server? && MeaningOf(lib, done).DoneFrame?
    ensures var r := StepOf(lib, StateAfter(lib, history), done).record;
            var window := Window(lib, history);
            var origin := OpenedWith(lib, Opening(lib, history));
            && r.Some?
            && r.value.finalOutput == Deltas(lib, window)
            && r.value.toolCalls == Tools(lib, window)
            && r.value.rawResponse == RawServer(window) + RawLine(done)
            && r.value.usage == MeaningOf(lib, done).usage
            && r.value.userInput == (if origin.input.Some? then origin.input.value else "")
            && r.value.rawRequest == origin.rawRequest && r.value.sessionId == origin.sessionId
            && r.value.modelName == origin.modelName && r.value.userId == origin.userId
            && r.value.sessionSource
                 == (if r.value.sessionId == "" then "" else "body:client_metadata.session_id")
    ensures StateAfter(lib, history + [done]) == NO_TURN
  {
    StateIsTurn(lib, history);
    assert (history + [done])[..|history|] == history;
  }
}

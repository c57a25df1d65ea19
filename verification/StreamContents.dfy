/** What streams say besides calls: text, reasoning, ends of messages and errors. For each provider
    it is told frame by frame, without what the parser remembers of calls. */
module StreamContents {
  import opened Text
  import opened StreamEvents
  import opened SseFraming
  import opened SseStream
  import opened SseChunking
  import opened IndexMap
  import opened ChatComplete
  import O = OpenAiParser
  import A = AnthropicParser
  import G = GeminiParser

  // All events but those about single calls.
  function Contents(events: seq<StreamEvent>): seq<StreamEvent> {
    if events == [] then []
    else (if IsContent(events[0]) then [events[0]] else []) + Contents(events[1..])
  }

  predicate IsContent(e: StreamEvent) {
    e.Token? || e.Reasoning? || e.Done? || e.Error?
  }

  lemma {:induction false} ContentsAppend(first: seq<StreamEvent>, second: seq<StreamEvent>)
    ensures Contents(first + second) == Contents(first) + Contents(second)
  {
    hide IsContent;
    if first == [] {
      assert first + second == second;
    } else {
      assert (first + second)[1..] == first[1..] + second;
      ContentsAppend(first[1..], second);
      AppendAssociates(if IsContent(first[0]) then [first[0]] else [], Contents(first[1..]), Contents(second));
    }
  }

  lemma {:induction false} NoContents(events: seq<StreamEvent>)
    requires forall e | e in events :: !IsContent(e)
    ensures Contents(events) == []
  {
    if events != [] {
      assert events[0] in events;
      NoContents(events[1..]);
    }
  }

  lemma {:induction false} OnlyContents(events: seq<StreamEvent>)
    requires forall e | e in events :: IsContent(e)
    ensures Contents(events) == events
  {
    if events != [] {
      assert events[0] in events;
      OnlyContents(events[1..]);
    }
  }

  /** They decide on all of a response but its calls. */
  lemma {:induction false} ContentsDecide(events: seq<StreamEvent>)
    ensures AllTokens(Contents(events)) == AllTokens(events) && AllReasoning(Contents(events)) == AllReasoning(events)
    ensures LastDone(Contents(events)) == LastDone(events)
    ensures NoError(Contents(events)) <==> NoError(events)
  {
    if events != [] {
      var e, rest := events[0], events[1..];
      ContentsDecide(rest);
      assert events == [e] + rest;
      if IsContent(e) {
        assert Contents(events)[1..] == Contents(rest);
      } else {
        assert [] + Contents(rest) == Contents(rest);
        assert "" + AllTokens(rest) == AllTokens(rest) && "" + AllReasoning(rest) == AllReasoning(rest);
      }
    }
  }

  lemma {:induction false} EndsAreNoContents(ids: seq<string>)
    ensures Contents(Ends(ids)) == []
  {
    if ids != [] {
      assert Ends(ids)[1..] == Ends(ids[1..]);
      EndsAreNoContents(ids[1..]);
    }
  }

  // ---- fields ----

  // A text that is there and not empty.
  predicate HasText(s: Option<string>) {
    s.Some? && s.value != ""
  }

  // A 32-bit number that may be missing.
  function Low32(n: Option<nat>): nat {
    if n.Some? then n.value % 0x1_0000_0000 else 0
  }

  // The usage a Done reports for what the payload says.
  function Usage(raw: Option<RawUsage>): Option<TokenUsage> {
    if raw == None then None
    else Some(TokenUsage(Low32(raw.value.prompt), Low32(raw.value.completion), Low32(raw.value.total)))
  }

  function Thought(s: Option<string>): seq<StreamEvent> {
    if HasText(s) then [Reasoning(s.value)] else []
  }

  function Said(s: Option<string>): seq<StreamEvent> {
    if HasText(s) then [Token(s.value)] else []
  }

  // ---- OpenAI ----

  function ChoiceSays(c: O.Choice, usage: Option<RawUsage>): seq<StreamEvent> {
    Thought(c.reasoning) + Said(c.content) + if HasText(c.finishReason) then [Done(c.finishReason.value, Usage(usage))] else []
  }

  function ChoicesSay(choices: seq<O.Choice>, usage: Option<RawUsage>): seq<StreamEvent> {
    if choices == [] then [] else ChoiceSays(choices[0], usage) + ChoicesSay(choices[1..], usage)
  }

  function OpenAiSays(decode: O.Decoder, frame: Frame): seq<StreamEvent> {
    var data := Trim(frame.data);
    if data == "[DONE]" then []
    else
      match decode(data)
      case Malformed(error) => [Error(error)]
      case ApiError(message) => [Error(if message.Some? then message.value else "Unknown API error")]
      case Completion(choices, usage) => ChoicesSay(choices, usage)
  }

  function AllOpenAiSays(decode: O.Decoder, frames: seq<Frame>): seq<StreamEvent> {
    if frames == [] then [] else OpenAiSays(decode, frames[0]) + AllOpenAiSays(decode, frames[1..])
  }

  lemma {:induction false} DeltasAreNoContents(ids: Entries, tcs: seq<O.ToolDelta>)
    ensures forall e | e in O.OnToolDeltas(ids, tcs).1 :: !IsContent(e)
    decreases |tcs|
  {
    if tcs != [] { DeltasAreNoContents(O.OnToolDelta(ids, tcs[0]).0, tcs[1..]); }
  }

  lemma ChoiceContents(ids: Entries, c: O.Choice, usage: Option<RawUsage>)
    ensures Contents(O.OnChoice(ids, c, usage).1) == ChoiceSays(c, usage)
  {
    hide Contents;
    var (ids1, deltas) := O.OnToolDeltas(ids, c.toolCalls);
    var text, end := O.TextEvents(c), O.OnFinish(ids1, c, usage).1;
    ContentsAppend(text + deltas, end);
    ContentsAppend(text, deltas);
    OnlyContents(text);
    DeltasAreNoContents(ids, c.toolCalls);
    NoContents(deltas);
    EndsAreNoContents(Values(ids1));
    if HasText(c.finishReason) {
      var done := [Done(c.finishReason.value, Usage(usage))];
      assert end == Ends(Values(ids1)) + done;
      ContentsAppend(Ends(Values(ids1)), done);
      OnlyContents(done);
    } else {
      OnlyContents(end);
    }
  }

  lemma {:induction false} ChoicesContents(ids: Entries, choices: seq<O.Choice>, usage: Option<RawUsage>)
    ensures Contents(O.OnChoices(ids, choices, usage).1) == ChoicesSay(choices, usage)
    decreases |choices|
  {
    if choices != [] {
      var (ids1, first) := O.OnChoice(ids, choices[0], usage);
      ChoiceContents(ids, choices[0], usage);
      ChoicesContents(ids1, choices[1..], usage);
      ContentsAppend(first, O.OnChoices(ids1, choices[1..], usage).1);
    }
  }

  /** An OpenAI stream: reasoning, text and the end of each choice with the usage of its chunk, and
      an error for every chunk that is one or cannot be read, whatever is remembered of calls. */
  lemma {:induction false} OpenAiContents(decode: O.Decoder, ids: Entries, frames: seq<Frame>)
    ensures Contents(Drive(O.AsParser(decode), ids, frames).1) == AllOpenAiSays(decode, frames)
    decreases |frames|
  {
    if frames != [] {
      var (ids1, result) := O.OnData(decode, ids, frames[0].data);
      OpenAiFrame(decode, ids, frames[0]);
      OpenAiContents(decode, ids1, frames[1..]);
      ContentsAppend(EventsOf(result), Drive(O.AsParser(decode), ids1, frames[1..]).1);
    }
  }

  lemma OpenAiFrame(decode: O.Decoder, ids: Entries, frame: Frame)
    ensures Contents(EventsOf(O.OnData(decode, ids, frame.data).1)) == OpenAiSays(decode, frame)
  {
    hide Contents;
    var events := EventsOf(O.OnData(decode, ids, frame.data).1);
    var payload := decode(Trim(frame.data));
    if Trim(frame.data) != "[DONE]" && payload.Completion? {
      ChoicesContents(ids, payload.choices, payload.usage);
    } else {
      OnlyContents(events);
    }
  }

  // ---- Anthropic ----

  // The input tokens that the last start of a message has told.
  function InputTokens(decode: A.Decoder, frames: seq<Frame>): nat {
    if frames == [] then 0
    else
      var before, last := InputTokens(decode, frames[..|frames| - 1]), frames[|frames| - 1];
      if ReadAs(decode, last, "message_start") && decode(last.data).root.hasMessage
      then Low32(decode(last.data).root.inputTokens) else before
  }

  // A frame that can be read, of this kind.
  predicate ReadAs(decode: A.Decoder, frame: Frame, event: string) {
    Trim(frame.data) != "" && decode(frame.data).Json? && frame.event == event
  }

  // Output and input tokens add up in 32 bits.
  function AnthropicUsage(input: nat, root: A.Payload): Option<TokenUsage> {
    var output := Low32(root.outputTokens);
    if root.hasUsage then Some(TokenUsage(input, output, (input + output) % 0x1_0000_0000)) else None
  }

  function DeltaSays(root: A.Payload): seq<StreamEvent> {
    if root.deltaType == Some("text_delta") then Said(root.text)
    else if root.deltaType == Some("thinking_delta") then Thought(root.thinking)
    else []
  }

  function AnthropicSays(decode: A.Decoder, input: nat, frame: Frame): seq<StreamEvent> {
    if Trim(frame.data) == "" then []
    else
      match decode(frame.data)
      case Malformed(error) => [Error(error)]
      case Json(root) => PayloadSays(input, frame.event, root)
  }

  function AllAnthropicSays(decode: A.Decoder, frames: seq<Frame>): seq<StreamEvent> {
    if frames == [] then []
    else
      var n := |frames| - 1;
      AllAnthropicSays(decode, frames[..n]) + AnthropicSays(decode, InputTokens(decode, frames[..n]), frames[n])
  }

  // What an event that can be read says.
  function PayloadSays(input: nat, event: string, root: A.Payload): seq<StreamEvent> {
    if event == "content_block_delta" then DeltaSays(root)
    else if event == "message_delta" then
      [Done(A.MapStopReason(if root.stopReason.Some? then root.stopReason.value else "end_turn"), AnthropicUsage(input, root))]
    else if event == "error" then
      [Error(if root.errorMessage.Some? then root.errorMessage.value
             else if root.errorType.Some? then root.errorType.value
             else "Unknown Anthropic streaming error")]
    else []
  }

  lemma DeltaContents(ids: Entries, root: A.Payload)
    ensures Contents(A.OnDelta(ids, root)) == DeltaSays(root)
  {
    hide Contents;
    var events := A.OnDelta(ids, root);
    if root.deltaType == Some("input_json_delta") {
      NoContents(events);
    } else {
      OnlyContents(events);
    }
  }

  lemma PayloadContents(s: A.State, event: string, root: A.Payload)
    ensures Contents(A.OnPayload(s, event, root).1) == PayloadSays(s.inputTokens, event, root)
  {
    hide Contents, A.MapStopReason, A.OnDelta, DeltaSays, Insert, Lookup, Remove;
    var events := A.OnPayload(s, event, root).1;
    if event == "content_block_delta" {
      DeltaContents(s.toolCallIds, root);
    } else if event == "message_delta" || event == "error" {
      OnlyContents(events);
    } else {
      NoContents(events);
    }
  }

  lemma AnthropicFrame(decode: A.Decoder, s: A.State, frame: Frame)
    ensures Contents(EventsOf(A.OnFrame(decode, s, frame).1)) == AnthropicSays(decode, s.inputTokens, frame)
  {
    hide Contents, A.OnPayload, PayloadSays;
    var events := EventsOf(A.OnFrame(decode, s, frame).1);
    if Trim(frame.data) != "" && decode(frame.data).Json? {
      PayloadContents(s, frame.event, decode(frame.data).root);
    } else {
      OnlyContents(events);
    }
  }

  lemma InputTokensStep(decode: A.Decoder, s: A.State, frame: Frame)
    ensures A.OnFrame(decode, s, frame).0.inputTokens
         == if ReadAs(decode, frame, "message_start") && decode(frame.data).root.hasMessage
            then Low32(decode(frame.data).root.inputTokens) else s.inputTokens
  {
  }

  /** An Anthropic stream: text and thinking deltas, the mapped reason and the usage of each message
      delta with the input tokens told at the start of the message, and the errors. */
  lemma {:induction false} AnthropicContents(decode: A.Decoder, frames: seq<Frame>)
    ensures Contents(Drive(A.AsParser(decode), A.FRESH, frames).1) == AllAnthropicSays(decode, frames)
    ensures Drive(A.AsParser(decode), A.FRESH, frames).0.inputTokens == InputTokens(decode, frames)
  {
    hide Contents, AnthropicSays, A.OnFrame;
    if frames == [] {
      NoContents([]);
    } else {
      var before, last := frames[..|frames| - 1], frames[|frames| - 1];
      assert frames == before + [last];
      AnthropicContents(decode, before);
      var (s, events) := Drive(A.AsParser(decode), A.FRESH, before);
      DriveSnoc(A.AsParser(decode), A.FRESH, before, last);
      AnthropicFrame(decode, s, last);
      InputTokensStep(decode, s, last);
      ContentsAppend(events, EventsOf(A.OnFrame(decode, s, last).1));
    }
  }

  /** The reasons Anthropic gives, in OpenAI's words. */
  lemma StopReasons(other: string)
    requires other !in ["end_turn", "tool_use", "max_tokens", "stop_sequence"]
    ensures A.MapStopReason("end_turn") == "stop" && A.MapStopReason("stop_sequence") == "stop"
    ensures A.MapStopReason("tool_use") == "tool_calls" && A.MapStopReason("max_tokens") == "length"
    ensures A.MapStopReason(other) == other
  {
    var known := ["end_turn", "tool_use", "max_tokens", "stop_sequence"];
    assert known[0] in known && known[1] in known && known[2] in known && known[3] in known;
    assert "stop_sequence"[0] == 's' && "end_turn"[0] == 'e' && "tool_use"[0] == 't' && "max_tokens"[0] == 'm';
  }

  // ---- Gemini ----

  function PartSays(p: G.Part): seq<StreamEvent> {
    if p.thought then Thought(p.text) else Said(p.text)
  }

  function PartsSay(parts: seq<G.Part>): seq<StreamEvent> {
    if parts == [] then [] else PartSays(parts[0]) + PartsSay(parts[1..])
  }

  predicate HasCall(parts: seq<G.Part>) {
    exists p | p in parts :: !p.thought && p.functionCall.Some?
  }

  // The end of a response: its mapped reason, or that there are calls, or just its usage.
  function EndSays(reason: Option<string>, calls: bool, usage: Option<RawUsage>): seq<StreamEvent> {
    if reason.Some? then [Done(if calls then "tool_calls" else G.MapFinishReason(reason.value), Usage(usage))]
    else if usage.Some? then [Done("stop", Usage(usage))]
    else []
  }

  function ResponseSays(calls: bool, candidate: Option<G.Candidate>, usage: Option<RawUsage>): seq<StreamEvent> {
    if candidate == None then EndSays(None, calls, usage)
    else
      PartsSay(candidate.value.parts)
      + EndSays(candidate.value.finishReason, calls || HasCall(candidate.value.parts), usage)
  }

  // `calls` says whether calls have come since the last finish reason.
  function GeminiSays(decode: G.Decoder, calls: bool, frame: Frame): seq<StreamEvent> {
    var data := Trim(frame.data);
    if data == "[DONE]" || data == "" then []
    else
      match decode(data)
      case Malformed(error) => [Error(error)]
      case ApiError(message) => [Error(if message.Some? then message.value else "Unknown Gemini streaming error")]
      case Response(candidate, usage) => ResponseSays(calls, candidate, usage)
  }

  function CallsAfter(decode: G.Decoder, calls: bool, frame: Frame): bool {
    var data := Trim(frame.data);
    if data == "[DONE]" || data == "" then calls
    else
      match decode(data)
      case Response(Some(candidate), _) => candidate.finishReason == None && (calls || HasCall(candidate.parts))
      case _ => calls
  }

  function AllGeminiSays(decode: G.Decoder, calls: bool, frames: seq<Frame>): seq<StreamEvent>
    decreases |frames|
  {
    if frames == [] then []
    else GeminiSays(decode, calls, frames[0]) + AllGeminiSays(decode, CallsAfter(decode, calls, frames[0]), frames[1..])
  }

  lemma SomethingInserted(m: Entries, key: nat, value: string)
    ensures Insert(m, key, value) != []
  {
  }

  lemma PartContents(s: G.State, p: G.Part)
    ensures var (t, events) := G.OnPart(s, p);
            Contents(events) == PartSays(p)
            && (t.toolCallIds != [] <==> s.toolCallIds != [] || (!p.thought && p.functionCall.Some?))
  {
    hide Contents, G.CallId, Insert;
    var (t, events) := G.OnPart(s, p);
    if !p.thought && p.functionCall.Some? {
      var call := p.functionCall.value;
      var id := G.CallId(OrElse(call.name, ""), s.counter);
      var text, pair := Said(p.text), [ToolCallStart(id, OrElse(call.name, "")), ToolCallDelta(id, call.arguments)];
      assert events == text + pair;
      SomethingInserted(s.toolCallIds, s.counter, id);
      ContentsAppend(text, pair);
      OnlyContents(text);
      NoContents(pair);
      assert text + [] == text;
    } else {
      OnlyContents(events);
    }
  }

  /** A part tells its thought or its text first, and then its call. */
  lemma PartInOrder(s: G.State, p: G.Part)
    ensures var events := G.OnPart(s, p).1;
            PartSays(p) <= events && |events| == |PartSays(p)| + if !p.thought && p.functionCall.Some? then 2 else 0
    ensures !p.thought && p.functionCall.Some? ==>
              var events, n := G.OnPart(s, p).1, |PartSays(p)|;
              events[n].ToolCallStart? && events[n + 1].ToolCallDelta? && events[n].id == events[n + 1].id
  {
    hide G.CallId, Insert;
  }

  lemma {:induction false} PartsContents(s: G.State, parts: seq<G.Part>)
    ensures var (t, events) := G.OnParts(s, parts);
            Contents(events) == PartsSay(parts)
            && (t.toolCallIds != [] <==> s.toolCallIds != [] || HasCall(parts))
    decreases |parts|
  {
    hide Contents, G.OnPart;
    if parts == [] {
      NoContents([]);
    } else {
      var (s1, first) := G.OnPart(s, parts[0]);
      PartContents(s, parts[0]);
      PartsContents(s1, parts[1..]);
      ContentsAppend(first, G.OnParts(s1, parts[1..]).1);
      assert parts == [parts[0]] + parts[1..];
    }
  }

  lemma ResponseContents(s: G.State, candidate: Option<G.Candidate>, usage: Option<RawUsage>)
    ensures Contents(G.OnResponse(s, candidate, usage).1) == ResponseSays(s.toolCallIds != [], candidate, usage)
    ensures G.OnResponse(s, candidate, usage).0.toolCallIds != [] <==>
              if candidate == None then s.toolCallIds != []
              else candidate.value.finishReason == None && (s.toolCallIds != [] || HasCall(candidate.value.parts))
  {
    hide Contents, G.OnParts, PartsSay, HasCall, G.MapFinishReason;
    var (s1, first) := if candidate.Some? then G.OnParts(s, candidate.value.parts) else (s, []);
    if candidate.Some? {
      PartsContents(s, candidate.value.parts);
    } else {
      NoContents([]);
    }
    var reason := if candidate.Some? then candidate.value.finishReason else None;
    var done := EndSays(reason, s1.toolCallIds != [], usage);
    var ends := if reason.Some? then Ends(Values(s1.toolCallIds)) else [];
    assert G.OnResponse(s, candidate, usage).1 == first + (ends + done);
    ContentsAppend(first, ends + done);
    ContentsAppend(ends, done);
    EndsAreNoContents(Values(s1.toolCallIds));
    NoContents([]);
    OnlyContents(done);
    assert [] + done == done;
  }

  /** A Gemini stream: thoughts and text of the parts, one end for each response that has a finish
      reason or usage, and the errors; with calls since the last finish reason the reason is that. */
  lemma {:induction false} GeminiContents(decode: G.Decoder, s: G.State, frames: seq<Frame>)
    ensures Contents(Drive(G.AsParser(decode), s, frames).1) == AllGeminiSays(decode, s.toolCallIds != [], frames)
    decreases |frames|
  {
    hide Contents, GeminiSays, CallsAfter, G.OnData;
    if frames == [] {
      NoContents([]);
    } else {
      var (t, result) := G.OnData(decode, s, frames[0].data);
      GeminiFrame(decode, s, frames[0]);
      GeminiContents(decode, t, frames[1..]);
      ContentsAppend(EventsOf(result), Drive(G.AsParser(decode), t, frames[1..]).1);
    }
  }

  lemma GeminiFrame(decode: G.Decoder, s: G.State, frame: Frame)
    ensures var (t, result) := G.OnData(decode, s, frame.data);
            Contents(EventsOf(result)) == GeminiSays(decode, s.toolCallIds != [], frame)
            && ((t.toolCallIds != []) == CallsAfter(decode, s.toolCallIds != [], frame))
  {
    hide Contents, G.OnResponse, ResponseSays;
    var events := EventsOf(G.OnData(decode, s, frame.data).1);
    var data := Trim(frame.data);
    if data != "[DONE]" && data != "" && decode(data).Response? {
      ResponseContents(s, decode(data).candidate, decode(data).usage);
    } else {
      OnlyContents(events);
    }
  }

  /** The reasons Gemini gives, in OpenAI's words, whatever their case. */
  lemma FinishReasons(reason: string)
    ensures var upper := G.Uppercase(reason);
            G.MapFinishReason(reason)
            == if upper == "STOP" then "stop"
               else if upper == "MAX_TOKENS" then "length"
               else if upper in ["SAFETY", "RECITATION"] then "content_filter"
               else "unknown"
  {
    var filtered := ["SAFETY", "RECITATION"];
    assert filtered[0] in filtered && filtered[1] in filtered;
  }

  lemma UpperOfAscii(c: char)
    requires c as int < 0x80
    ensures G.UpperChar(c) == [if 'a' <= c <= 'z' then (c as int - 32) as char else c]
  {
  }

  lemma {:induction false} AsciiUppercase(s: string)
    requires forall i | 0 <= i < |s| :: s[i] as int < 0x80
    ensures |G.Uppercase(s)| == |s|
    ensures forall i | 0 <= i < |s| ::
              G.Uppercase(s)[i] == if 'a' <= s[i] <= 'z' then (s[i] as int - 32) as char else s[i]
  {
    hide G.UpperChar;
    if s != "" {
      UpperOfAscii(s[0]);
      AsciiUppercase(s[1..]);
    }
  }

  // ---- whole responses ----

  /** What a stream says is what its response has, from text in any chunks to the collected text,
      reasoning, finish reason and usage; `said` is told by the lemma of the provider. */
  lemma StreamedContents<S>(parse: Parser<S>, parser: S, chunks: seq<string>, said: seq<StreamEvent>)
    requires NeverOverflows(chunks) && NoError(said)
    requires Contents(Drive(parse, parser, Delivered(chunks) + Flushed(chunks)).1) == said
    ensures var r := Collect(RunToEnd(parse, parser, chunks).1, NOTHING);
            var last := LastDone(said);
            r.Response?
            && r.content == (if AllTokens(said) == "" then None else Some(AllTokens(said)))
            && r.reasoning == (if AllReasoning(said) == "" then None else Some(AllReasoning(said)))
            && r.finishReason == (if last.Some? then last.value.finishReason else "unknown")
            && r.usage == (if last.Some? then last.value.usage else None)
  {
    var events := RunToEnd(parse, parser, chunks).1;
    RunToEndIsDrive(parse, parser, chunks);
    ContentsDecide(events);
    ResponseIsComplete(events);
  }
}

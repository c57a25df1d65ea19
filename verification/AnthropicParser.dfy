/** The provider parser for Anthropic message streams: named SSE events, and a map from the
    index of each open tool-use block to the id of its call. */
module AnthropicParser {
  import opened Text
  import opened StreamEvents
  import opened SseFraming
  import opened SseStream
  import opened IndexMap

  // The fields the parser reads, wherever they sit in the JSON of an event.
  datatype Payload = Payload(
    hasMessage: bool, inputTokens: Option<nat>,
    index: Option<nat>, blockType: Option<string>, blockId: Option<string>, blockName: Option<string>,
    deltaType: Option<string>, text: Option<string>, thinking: Option<string>, partialJson: Option<string>,
    stopReason: Option<string>, hasUsage: bool, outputTokens: Option<nat>,
    errorMessage: Option<string>, errorType: Option<string>)

  datatype Decoded = Json(root: Payload) | Malformed(error: string)

  type Decoder = string -> Decoded

  datatype State = State(toolCallIds: Entries, inputTokens: nat)

  const FRESH := State([], 0)

  function MapStopReason(reason: string): string {
    if reason == "end_turn" then "stop"
    else if reason == "tool_use" then "tool_calls"
    else if reason == "max_tokens" then "length"
    else if reason == "stop_sequence" then "stop"
    else reason
  }

  // ---- specification ----

  function OnDelta(ids: Entries, root: Payload): seq<StreamEvent> {
    if root.deltaType == Some("text_delta") then
      (var t := NonEmpty(root.text); if t.Some? then [Token(t.value)] else [])
    else if root.deltaType == Some("thinking_delta") then
      (var t := NonEmpty(root.thinking); if t.Some? then [Reasoning(t.value)] else [])
    else if root.deltaType == Some("input_json_delta") then
      var t := NonEmpty(root.partialJson);
      var owner := Lookup(ids, AsU32(root.index));
      if t.Some? && owner.Some? then [ToolCallDelta(owner.value, t.value)] else []
    else []
  }

  // Token totals are 32-bit sums.
  function MessageUsage(s: State, root: Payload): Option<TokenUsage> {
    var output := AsU32(root.outputTokens);
    if root.hasUsage then Some(TokenUsage(s.inputTokens, output, (s.inputTokens + output) % U32_BOUND)) else None
  }

  function OnPayload(s: State, event: string, root: Payload): (State, seq<StreamEvent>) {
    var index := AsU32(root.index);
    if event == "message_start" then
      (if root.hasMessage then s.(inputTokens := AsU32(root.inputTokens)) else s, [])
    else if event == "content_block_start" then
      if root.blockType == Some("tool_use") then
        var id := OrElse(root.blockId, "");
        (s.(toolCallIds := Insert(s.toolCallIds, index, id)), [ToolCallStart(id, OrElse(root.blockName, ""))])
      else (s, [])
    else if event == "content_block_delta" then (s, OnDelta(s.toolCallIds, root))
    else if event == "content_block_stop" then
      var id := Lookup(s.toolCallIds, index);
      if id.Some? then (s.(toolCallIds := Remove(s.toolCallIds, index)), [ToolCallEnd(id.value)]) else (s, [])
    else if event == "message_delta" then
      (s, [Done(MapStopReason(OrElse(root.stopReason, "end_turn")), MessageUsage(s, root))])
    else if event == "error" then
      var message := if root.errorMessage.Some? then root.errorMessage else root.errorType;
      (s, [Error(OrElse(message, "Unknown Anthropic streaming error"))])
    else (s, [])
  }

  function OnFrame(decode: Decoder, s: State, frame: Frame): (State, ParseResult) {
    if Trim(frame.data) == "" then (s, Ok([]))
    else
      match decode(frame.data)
      case Malformed(error) => (s, Err(error))
      case Json(root) =>
        var (t, events) := OnPayload(s, frame.event, root);
        (t, Ok(events))
  }

  function AsParser(decode: Decoder): Parser<State> {
    (s: State, frame: Frame) => OnFrame(decode, s, frame)
  }

  // ---- the parser object ----

  class AnthropicSseParser {
    const decode: Decoder
    var toolCallIds: Entries
    var inputTokens: nat

    constructor (decode: Decoder)
      ensures Valid() && this.decode == decode && Abstract() == FRESH
    {
      this.decode, toolCallIds, inputTokens := decode, [], 0;
    }

    // The entries are those of a map: one per block index.
    ghost predicate Valid()
      reads this
    {
      DistinctKeys(toolCallIds)
    }

    function Abstract(): State
      reads this
    {
      State(toolCallIds, inputTokens)
    }

    method ParseChunk(frame: Frame) returns (r: ParseResult)
      requires Valid()
      modifies this
      ensures Valid()
      ensures (Abstract(), r) == OnFrame(decode, old(Abstract()), frame)
    {
      if Trim(frame.data) == "" {
        return Ok([]);
      }
      var decoded := decode(frame.data);
      if decoded.Malformed? {
        return Err(decoded.error);
      }
      var root := decoded.root;
      var idx := AsU32(root.index);
      match frame.event {
        case "message_start" =>
          if root.hasMessage {
            inputTokens := AsU32(root.inputTokens);
          }
          return Ok([]);
        case "content_block_start" =>
          if root.blockType == Some("tool_use") {
            var id, name := OrElse(root.blockId, ""), OrElse(root.blockName, "");
            KeysStayDistinct(toolCallIds, idx, id);
            toolCallIds := Insert(toolCallIds, idx, id);
            return Ok([ToolCallStart(id, name)]);
          }
          return Ok([]);
        case "content_block_delta" =>
          match root.deltaType {
            case Some("text_delta") =>
              var text := OrElse(root.text, "");
              return Ok(if text == "" then [] else [Token(text)]);
            case Some("thinking_delta") =>
              var thinking := OrElse(root.thinking, "");
              return Ok(if thinking == "" then [] else [Reasoning(thinking)]);
            case Some("input_json_delta") =>
              var partial := OrElse(root.partialJson, "");
              var id := Lookup(toolCallIds, idx);
              return Ok(if partial != "" && id.Some? then [ToolCallDelta(id.value, partial)] else []);
            case _ =>
              return Ok([]);
          }
        case "content_block_stop" =>
          var id := Lookup(toolCallIds, idx);
          if id.Some? {
            KeysStayDistinct(toolCallIds, idx, "");
            toolCallIds := Remove(toolCallIds, idx);
            return Ok([ToolCallEnd(id.value)]);
          }
          return Ok([]);
        case "message_delta" =>
          var finishReason := MapStopReason(OrElse(root.stopReason, "end_turn"));
          var outputTokens := AsU32(root.outputTokens);
          var totalTokens := (inputTokens + outputTokens) % U32_BOUND;
          var usage := if root.hasUsage then Some(TokenUsage(inputTokens, outputTokens, totalTokens)) else None;
          return Ok([Done(finishReason, usage)]);
        case "error" =>
          var message := if root.errorMessage.Some? then root.errorMessage else root.errorType;
          return Ok([Error(OrElse(message, "Unknown Anthropic streaming error"))]);
        case _ =>
          return Ok([]);
      }
    }
  }

  // ---- tool-call lifecycle ----

  // Starting a call at an index still in use forgets the id that was there.
  function LostAtPayload(s: State, event: string, root: Payload): multiset<string> {
    var previous := Lookup(s.toolCallIds, AsU32(root.index));
    if event == "content_block_start" && root.blockType == Some("tool_use") && previous.Some?
    then multiset{previous.value}
    else multiset{}
  }

  function LostAt(decode: Decoder, s: State, frame: Frame): multiset<string> {
    var decoded := decode(frame.data);
    if Trim(frame.data) != "" && decoded.Json? then LostAtPayload(s, frame.event, decoded.root) else multiset{}
  }

  function LostIn(decode: Decoder, s: State, frames: seq<Frame>): multiset<string>
    decreases |frames|
  {
    if frames == [] then multiset{}
    else LostAt(decode, s, frames[0]) + LostIn(decode, OnFrame(decode, s, frames[0]).0, frames[1..])
  }

  lemma StartAccounted(ids: Entries, index: nat, id: string, name: string, lost: multiset<string>)
    ensures var previous := Lookup(ids, index);
            var open := After(Held(ids) + lost, [ToolCallStart(id, name)]);
            open.Some?
            && open.value == Held(Insert(ids, index, id))
                             + (lost + if previous.Some? then multiset{previous.value} else multiset{})
  {
    InsertHeld(ids, index, id);
    AfterCons(Held(ids) + lost, ToolCallStart(id, name), []);
    assert [ToolCallStart(id, name)] + [] == [ToolCallStart(id, name)];
    var previous := Lookup(ids, index);
    if previous.Some? {
      assert Held(Insert(ids, index, id)) + (lost + multiset{previous.value})
          == Held(Insert(ids, index, id)) + multiset{previous.value} + lost;
    }
  }

  lemma StopAccounted(ids: Entries, index: nat, lost: multiset<string>)
    requires Lookup(ids, index).Some?
    ensures var open := After(Held(ids) + lost, [ToolCallEnd(Lookup(ids, index).value)]);
            open.Some? && open.value == Held(Remove(ids, index)) + lost
  {
    var id := Lookup(ids, index).value;
    RemoveHeld(ids, index);
    LookupIsHeld(ids, index);
    AfterCons(Held(ids) + lost, ToolCallEnd(id), []);
    assert [ToolCallEnd(id)] + [] == [ToolCallEnd(id)];
  }

  lemma DeltaAccounted(ids: Entries, root: Payload, open: multiset<string>)
    requires Held(ids) <= open
    ensures After(open, OnDelta(ids, root)) == Some(open)
  {
    var events, owner := OnDelta(ids, root), Lookup(ids, AsU32(root.index));
    if events != [] && events[0].ToolCallDelta? {
      LookupIsHeld(ids, AsU32(root.index));
      assert events == [events[0]] + [];
      AfterCons(open, events[0], []);
    } else {
      AfterSilent(open, events);
    }
  }

  lemma PayloadAccounted(s: State, event: string, root: Payload, lost: multiset<string>)
    ensures var (t, events) := OnPayload(s, event, root);
            var open := After(Held(s.toolCallIds) + lost, events);
            open.Some? && open.value == Held(t.toolCallIds) + (lost + LostAtPayload(s, event, root))
  {
    var ids, index := s.toolCallIds, AsU32(root.index);
    assert lost + multiset{} == lost;
    if event == "content_block_start" && root.blockType == Some("tool_use") {
      StartAccounted(ids, index, OrElse(root.blockId, ""), OrElse(root.blockName, ""), lost);
    } else if event == "content_block_stop" && Lookup(ids, index).Some? {
      StopAccounted(ids, index, lost);
    } else if event == "content_block_delta" {
      DeltaAccounted(ids, root, Held(ids) + lost);
    } else {
      AfterSilent(Held(ids) + lost, OnPayload(s, event, root).1);
    }
  }

  lemma FrameAccounted(decode: Decoder, s: State, frame: Frame, lost: multiset<string>)
    ensures var (t, result) := OnFrame(decode, s, frame);
            var open := After(Held(s.toolCallIds) + lost, EventsOf(result));
            open.Some? && open.value == Held(t.toolCallIds) + (lost + LostAt(decode, s, frame))
  {
    var decoded := decode(frame.data);
    if Trim(frame.data) != "" && decoded.Json? {
      PayloadAccounted(s, frame.event, decoded.root, lost);
    } else {
      AfterSilent(Held(s.toolCallIds) + lost, EventsOf(OnFrame(decode, s, frame).1));
    }
  }

  lemma {:induction false} FramesAccounted(decode: Decoder, s: State, frames: seq<Frame>, lost: multiset<string>)
    ensures var (t, events) := Drive(AsParser(decode), s, frames);
            var open := After(Held(s.toolCallIds) + lost, events);
            open.Some? && open.value == Held(t.toolCallIds) + (lost + LostIn(decode, s, frames))
    decreases |frames|
  {
    if frames != [] {
      var (t, result) := OnFrame(decode, s, frames[0]);
      var lost1 := lost + LostAt(decode, s, frames[0]);
      FrameAccounted(decode, s, frames[0], lost);
      FramesAccounted(decode, t, frames[1..], lost1);
      AfterAppend(Held(s.toolCallIds) + lost, EventsOf(result), Drive(AsParser(decode), t, frames[1..]).1);
      assert lost1 + LostIn(decode, t, frames[1..]) == lost + LostIn(decode, s, frames);
    }
  }

  /** For every sequence of events: fragments and ends only ever name open calls, and what is
      open is what the parser remembers plus what was displaced by reopening an index. */
  lemma LifecycleHolds(decode: Decoder, frames: seq<Frame>)
    ensures var (t, events) := Drive(AsParser(decode), FRESH, frames);
            After(multiset{}, events).Some?
            && After(multiset{}, events).value == Held(t.toolCallIds) + LostIn(decode, FRESH, frames)
  {
    FramesAccounted(decode, FRESH, frames, multiset{});
    assert Held([]) + multiset{} == multiset{};
  }

  /** So with ids that are all different nothing about a call precedes its start or follows its end. */
  lemma CallsLiveOnce(decode: Decoder, frames: seq<Frame>, i: nat, j: nat)
    requires FreshStarts(Drive(AsParser(decode), FRESH, frames).1)
    requires i < j < |Drive(AsParser(decode), FRESH, frames).1|
    ensures var events := Drive(AsParser(decode), FRESH, frames).1;
            (events[i].ToolCallEnd? ==> !About(events[j], events[i].id))
            && (events[j].ToolCallStart? ==> !About(events[i], events[j].id))
  {
    LifecycleHolds(decode, frames);
    OneLifePerId(Drive(AsParser(decode), FRESH, frames).1, i, j);
  }

  lemma KeysDistinctStep(decode: Decoder, s: State, frame: Frame)
    requires DistinctKeys(s.toolCallIds)
    ensures DistinctKeys(OnFrame(decode, s, frame).0.toolCallIds)
  {
    var decoded := decode(frame.data);
    if decoded.Json? {
      KeysStayDistinct(s.toolCallIds, AsU32(decoded.root.index), OrElse(decoded.root.blockId, ""));
    }
  }

  lemma {:induction false} KeysDistinctAfter(decode: Decoder, s: State, frames: seq<Frame>)
    requires DistinctKeys(s.toolCallIds)
    ensures DistinctKeys(Drive(AsParser(decode), s, frames).0.toolCallIds)
    decreases |frames|
  {
    if frames != [] {
      KeysDistinctStep(decode, s, frames[0]);
      KeysDistinctAfter(decode, OnFrame(decode, s, frames[0]).0, frames[1..]);
    }
  }

  // What a block stop yields.
  function StopEvents(id: Option<string>): seq<StreamEvent> {
    if id.Some? then [ToolCallEnd(id.value)] else []
  }

  function Counting(id: Option<string>): multiset<string> {
    if id.Some? then multiset{id.value} else multiset{}
  }

  predicate IsStop(decode: Decoder, frame: Frame) {
    Trim(frame.data) != "" && decode(frame.data).Json? && frame.event == "content_block_stop"
  }

  lemma StopFrame(decode: Decoder, s: State, frame: Frame)
    requires IsStop(decode, frame) && DistinctKeys(s.toolCallIds)
    ensures var (t, result) := OnFrame(decode, s, frame);
            var index := AsU32(decode(frame.data).root.index);
            EventsOf(result) == StopEvents(Lookup(s.toolCallIds, index)) && Lookup(t.toolCallIds, index) == None
  {
    var index := AsU32(decode(frame.data).root.index);
    RemoveLookup(s.toolCallIds, index, index);
  }

  lemma OpenAfterStop(before: seq<StreamEvent>, id: Option<string>)
    requires After(multiset{}, before).Some? && After(multiset{}, before + StopEvents(id)).Some?
    ensures After(multiset{}, before + StopEvents(id)) == Some(After(multiset{}, before).value - Counting(id))
  {
    var open := After(multiset{}, before).value;
    AfterAppend(multiset{}, before, StopEvents(id));
    if id.Some? {
      assert StopEvents(id)[1..] == [];
    } else {
      assert open - multiset{} == open;
    }
  }

  /** A block stop ends the call of its block, if there is one, and forgets it: the call is no
      longer open and its index is free. */
  lemma StopClosesCall(decode: Decoder, frames: seq<Frame>, frame: Frame)
    requires IsStop(decode, frame)
    ensures var (s, before) := Drive(AsParser(decode), FRESH, frames);
            var (t, events) := Drive(AsParser(decode), FRESH, frames + [frame]);
            var index := AsU32(decode(frame.data).root.index);
            var id := Lookup(s.toolCallIds, index);
            Lookup(t.toolCallIds, index) == None && events == before + StopEvents(id)
            && After(multiset{}, before).Some?
            && After(multiset{}, events) == Some(After(multiset{}, before).value - Counting(id))
  {
    hide OnFrame, Drive, After, LostIn, StopEvents, Counting, Lookup;
    var (s, before) := Drive(AsParser(decode), FRESH, frames);
    LifecycleHolds(decode, frames);
    LifecycleHolds(decode, frames + [frame]);
    DriveSnoc(AsParser(decode), FRESH, frames, frame);
    KeysDistinctAfter(decode, FRESH, frames);
    StopFrame(decode, s, frame);
    OpenAfterStop(before, Lookup(s.toolCallIds, AsU32(decode(frame.data).root.index)));
  }
}

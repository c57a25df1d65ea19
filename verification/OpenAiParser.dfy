/** The provider parser for OpenAI `chat.completion.chunk` streams. It remembers the id of the
    tool call opened at each index, because later fragments carry only the index. */
module OpenAiParser {
  import opened Text
  import opened StreamEvents
  import opened SseFraming
  import opened SseStream
  import opened IndexMap

  // ---- decoded payloads ----

  // One element of `delta.tool_calls`.
  datatype ToolDelta = ToolDelta(index: Option<nat>, id: Option<string>, name: Option<string>, arguments: Option<string>)

  datatype Choice = Choice(
    reasoning: Option<string>, content: Option<string>, toolCalls: seq<ToolDelta>, finishReason: Option<string>)

  datatype Payload =
    | ApiError(message: Option<string>)
    | Completion(choices: seq<Choice>, usage: Option<RawUsage>)
    | Malformed(error: string)

  // Reading the JSON text of a data field.
  type Decoder = string -> Payload

  function Position(tc: ToolDelta): nat {
    AsU32(tc.index)
  }

  // ---- specification ----

  function StartOf(tc: ToolDelta): seq<StreamEvent> {
    if tc.id.Some? then [ToolCallStart(tc.id.value, OrElse(tc.name, ""))] else []
  }

  // A fragment belongs to the call last opened at its index; without one it is dropped.
  function FragmentOf(ids: Entries, tc: ToolDelta): seq<StreamEvent> {
    var fragment := NonEmpty(tc.arguments);
    var owner := Lookup(ids, Position(tc));
    if fragment.Some? && owner.Some? then [ToolCallDelta(owner.value, fragment.value)] else []
  }

  function OnToolDelta(ids: Entries, tc: ToolDelta): (Entries, seq<StreamEvent>) {
    var ids1 := if tc.id.Some? then Insert(ids, Position(tc), tc.id.value) else ids;
    (ids1, StartOf(tc) + FragmentOf(ids1, tc))
  }

  function OnToolDeltas(ids: Entries, tcs: seq<ToolDelta>): (Entries, seq<StreamEvent>)
    decreases |tcs|
  {
    if tcs == [] then (ids, [])
    else
      var (ids1, first) := OnToolDelta(ids, tcs[0]);
      var (ids2, rest) := OnToolDeltas(ids1, tcs[1..]);
      (ids2, first + rest)
  }

  function TextEvents(choice: Choice): seq<StreamEvent> {
    var reasoning := NonEmpty(choice.reasoning);
    var content := NonEmpty(choice.content);
    (if reasoning.Some? then [Reasoning(reasoning.value)] else [])
    + (if content.Some? then [Token(content.value)] else [])
  }

  function OnFinish(ids: Entries, choice: Choice, usage: Option<RawUsage>): (Entries, seq<StreamEvent>) {
    var reason := NonEmpty(choice.finishReason);
    if reason == None then (ids, [])
    else ([], Ends(Values(ids)) + [Done(reason.value, if usage.Some? then Some(ToUsage(usage.value)) else None)])
  }

  function OnChoice(ids: Entries, choice: Choice, usage: Option<RawUsage>): (Entries, seq<StreamEvent>) {
    var (ids1, calls) := OnToolDeltas(ids, choice.toolCalls);
    var (ids2, end) := OnFinish(ids1, choice, usage);
    (ids2, TextEvents(choice) + calls + end)
  }

  function OnChoices(ids: Entries, choices: seq<Choice>, usage: Option<RawUsage>): (Entries, seq<StreamEvent>)
    decreases |choices|
  {
    if choices == [] then (ids, [])
    else
      var (ids1, first) := OnChoice(ids, choices[0], usage);
      var (ids2, rest) := OnChoices(ids1, choices[1..], usage);
      (ids2, first + rest)
  }

  function OnData(decode: Decoder, ids: Entries, data: string): (Entries, ParseResult) {
    if Trim(data) == "[DONE]" then (ids, Ok([]))
    else
      match decode(Trim(data))
      case Malformed(error) => (ids, Err(error))
      case ApiError(message) => (ids, Ok([Error(OrElse(message, "Unknown API error"))]))
      case Completion(choices, usage) =>
        var (ids1, events) := OnChoices(ids, choices, usage);
        (ids1, Ok(events))
  }

  // The parser in the form the stream drives.
  function AsParser(decode: Decoder): Parser<Entries> {
    (ids: Entries, frame: Frame) => OnData(decode, ids, frame.data)
  }

  // The first of the remaining deltas, and the rest after it.
  lemma ToolDeltasStep(ids: Entries, tcs: seq<ToolDelta>, i: nat, earlier: seq<StreamEvent>)
    requires i < |tcs|
    ensures var (ids1, first) := OnToolDelta(ids, tcs[i]);
            var (ids2, rest) := OnToolDeltas(ids1, tcs[i + 1..]);
            OnToolDeltas(ids, tcs[i..]).0 == ids2
            && earlier + OnToolDeltas(ids, tcs[i..]).1 == earlier + first + rest
  {
    var (ids1, first) := OnToolDelta(ids, tcs[i]);
    assert tcs[i..][1..] == tcs[i + 1..];
    AppendAssociates(earlier, first, OnToolDeltas(ids1, tcs[i + 1..]).1);
  }

  lemma NoToolDeltas(ids: Entries)
    ensures OnToolDeltas(ids, []) == (ids, [])
  {
  }

  // ---- the parser object ----

  class OpenAiSseParser {
    const decode: Decoder
    var toolCallIds: Entries

    constructor (decode: Decoder)
      ensures this.decode == decode && toolCallIds == []
    {
      this.decode, toolCallIds := decode, [];
    }

    method ParseToolCalls(toolCalls: seq<ToolDelta>) returns (events: seq<StreamEvent>)
      modifies this
      ensures (toolCallIds, events) == OnToolDeltas(old(toolCallIds), toolCalls)
    {
      hide OnToolDeltas;
      events := [];
      ghost var all := OnToolDeltas(toolCallIds, toolCalls);
      var i := 0;
      while i < |toolCalls|
        invariant 0 <= i <= |toolCalls|
        invariant OnToolDeltas(toolCallIds, toolCalls[i..]).0 == all.0
        invariant events + OnToolDeltas(toolCallIds, toolCalls[i..]).1 == all.1
      {
        var tc := toolCalls[i];
        ghost var (ids1, first) := OnToolDelta(toolCallIds, tc);
        ToolDeltasStep(toolCallIds, toolCalls, i, events);
        ghost var before := events;
        var idx := AsU32(tc.index);
        if tc.id.Some? {
          var name := OrElse(tc.name, "");
          toolCallIds := Insert(toolCallIds, idx, tc.id.value);
          events := events + [ToolCallStart(tc.id.value, name)];
        }
        if tc.arguments.Some? && tc.arguments.value != "" {
          var owner := Lookup(toolCallIds, idx);
          if owner.Some? {
            events := events + [ToolCallDelta(owner.value, tc.arguments.value)];
          }
        }
        assert toolCallIds == ids1 && events == before + first;
        i := i + 1;
      }
      assert toolCalls[i..] == [];
      NoToolDeltas(toolCallIds);
      assert events == all.1;
    }

    method ParseChoice(choice: Choice, usage: Option<RawUsage>) returns (events: seq<StreamEvent>)
      modifies this
      ensures (toolCallIds, events) == OnChoice(old(toolCallIds), choice, usage)
    {
      hide OnToolDeltas;
      events := [];
      if choice.reasoning.Some? && choice.reasoning.value != "" {
        events := events + [Reasoning(choice.reasoning.value)];
      }
      if choice.content.Some? && choice.content.value != "" {
        events := events + [Token(choice.content.value)];
      }
      assert events == TextEvents(choice);
      var calls := ParseToolCalls(choice.toolCalls);
      events := events + calls;
      ghost var withoutEnd := events;
      ghost var end := OnFinish(toolCallIds, choice, usage);
      if choice.finishReason.Some? && choice.finishReason.value != "" {
        var drained := Values(toolCallIds);
        toolCallIds := [];
        for k := 0 to |drained|
          invariant toolCallIds == []
          invariant events + Ends(drained[k..]) == withoutEnd + Ends(drained)
        {
          assert drained[k..][1..] == drained[k + 1..];
          AppendAssociates(events, [ToolCallEnd(drained[k])], Ends(drained[k + 1..]));
          events := events + [ToolCallEnd(drained[k])];
        }
        assert events == withoutEnd + Ends(drained);
        var tokens := if usage.Some? then Some(ToUsage(usage.value)) else None;
        events := events + [Done(choice.finishReason.value, tokens)];
      }
      assert events == withoutEnd + end.1;
    }

    /** One SSE message. The ids it leaves behind and the events it yields are those of `OnData`. */
    method ParseChunk(frame: Frame) returns (r: ParseResult)
      modifies this
      ensures (toolCallIds, r) == OnData(decode, old(toolCallIds), frame.data)
    {
      var trimmed := Trim(frame.data);
      if trimmed == "[DONE]" {
        return Ok([]);
      }
      var root := decode(trimmed);
      if root.Malformed? {
        return Err(root.error);
      }
      if root.ApiError? {
        return Ok([Error(OrElse(root.message, "Unknown API error"))]);
      }
      var events: seq<StreamEvent> := [];
      var choices, usage := root.choices, root.usage;
      ghost var all := OnChoices(toolCallIds, choices, usage);
      var i := 0;
      while i < |choices|
        invariant 0 <= i <= |choices|
        invariant OnChoices(toolCallIds, choices[i..], usage).0 == all.0
        invariant events + OnChoices(toolCallIds, choices[i..], usage).1 == all.1
      {
        ghost var (ids1, first) := OnChoice(toolCallIds, choices[i], usage);
        assert choices[i..][1..] == choices[i + 1..];
        AppendAssociates(events, first, OnChoices(ids1, choices[i + 1..], usage).1);
        var more := ParseChoice(choices[i], usage);
        events := events + more;
        i := i + 1;
      }
      assert events == all.1;
      return Ok(events);
    }
  }

  // ---- tool-call lifecycle ----

  // The id that is forgotten when a call is opened at an index that is still in use.
  function LostAtDelta(ids: Entries, tc: ToolDelta): multiset<string> {
    var previous := Lookup(ids, Position(tc));
    if tc.id.Some? && previous.Some? then multiset{previous.value} else multiset{}
  }

  function LostAtDeltas(ids: Entries, tcs: seq<ToolDelta>): multiset<string>
    decreases |tcs|
  {
    if tcs == [] then multiset{}
    else LostAtDelta(ids, tcs[0]) + LostAtDeltas(OnToolDelta(ids, tcs[0]).0, tcs[1..])
  }

  function LostAtChoices(ids: Entries, choices: seq<Choice>): multiset<string>
    decreases |choices|
  {
    if choices == [] then multiset{}
    else LostAtDeltas(ids, choices[0].toolCalls) + LostAtChoices(OnChoice(ids, choices[0], None).0, choices[1..])
  }

  function LostAtFrame(decode: Decoder, ids: Entries, frame: Frame): multiset<string> {
    var payload := decode(Trim(frame.data));
    if Trim(frame.data) != "[DONE]" && payload.Completion? then LostAtChoices(ids, payload.choices) else multiset{}
  }

  function LostAtFrames(decode: Decoder, ids: Entries, frames: seq<Frame>): multiset<string>
    decreases |frames|
  {
    if frames == [] then multiset{}
    else
      LostAtFrame(decode, ids, frames[0]) + LostAtFrames(decode, OnData(decode, ids, frames[0].data).0, frames[1..])
  }

  // From open calls that are either remembered or lost, the events lead to such a state again.
  ghost predicate Accounted(ids: Entries, lost: multiset<string>, events: seq<StreamEvent>, ids1: Entries,
                            lost1: multiset<string>) {
    var open := After(Held(ids) + lost, events);
    open.Some? && open.value == Held(ids1) + lost1
  }

  lemma AccountAppend(ids: Entries, lost: multiset<string>, first: seq<StreamEvent>,
                      ids1: Entries, lost1: multiset<string>, second: seq<StreamEvent>,
                      ids2: Entries, lost2: multiset<string>)
    requires Accounted(ids, lost, first, ids1, lost1) && Accounted(ids1, lost1, second, ids2, lost2)
    ensures Accounted(ids, lost, first + second, ids2, lost2)
  {
    AfterAppend(Held(ids) + lost, first, second);
  }

  lemma AccountStart(ids: Entries, tc: ToolDelta, lost: multiset<string>)
    requires tc.id.Some?
    ensures Held(ids) + lost + multiset{tc.id.value} == Held(OnToolDelta(ids, tc).0) + (lost + LostAtDelta(ids, tc))
  {
    InsertHeld(ids, Position(tc), tc.id.value);
    var ids1 := OnToolDelta(ids, tc).0;
    var previous := Lookup(ids, Position(tc));
    if previous.Some? {
      assert Held(ids1) + (lost + multiset{previous.value}) == Held(ids1) + multiset{previous.value} + lost;
    }
  }

  lemma AccountFragment(ids: Entries, tc: ToolDelta, open: multiset<string>)
    requires Held(OnToolDelta(ids, tc).0) <= open
    ensures After(open, FragmentOf(OnToolDelta(ids, tc).0, tc)) == Some(open)
  {
    var ids1 := OnToolDelta(ids, tc).0;
    if Lookup(ids1, Position(tc)).Some? {
      LookupIsHeld(ids1, Position(tc));
    }
  }

  lemma AccountToolDelta(ids: Entries, tc: ToolDelta, lost: multiset<string>)
    ensures var (ids1, events) := OnToolDelta(ids, tc); Accounted(ids, lost, events, ids1, lost + LostAtDelta(ids, tc))
  {
    var ids1 := OnToolDelta(ids, tc).0;
    var lost1 := lost + LostAtDelta(ids, tc);
    assert Accounted(ids, lost, StartOf(tc), ids1, lost1) by {
      if tc.id.Some? {
        AccountStart(ids, tc, lost);
        assert After(Held(ids) + lost, StartOf(tc)) == Some(Held(ids) + lost + multiset{tc.id.value});
      } else {
        assert lost1 == lost;
      }
    }
    AccountFragment(ids, tc, Held(ids1) + lost1);
    AccountAppend(ids, lost, StartOf(tc), ids1, lost1, FragmentOf(ids1, tc), ids1, lost1);
  }

  lemma {:induction false} AccountToolDeltas(ids: Entries, tcs: seq<ToolDelta>, lost: multiset<string>)
    ensures var (ids1, events) := OnToolDeltas(ids, tcs); Accounted(ids, lost, events, ids1, lost + LostAtDeltas(ids, tcs))
    decreases |tcs|
  {
    hide Accounted;
    if tcs == [] {
      AccountSilent(ids, lost, []);
      assert lost + multiset{} == lost;
    } else {
      var (ids1, first) := OnToolDelta(ids, tcs[0]);
      var lost1 := lost + LostAtDelta(ids, tcs[0]);
      var (ids2, rest) := OnToolDeltas(ids1, tcs[1..]);
      AccountToolDelta(ids, tcs[0], lost);
      AccountToolDeltas(ids1, tcs[1..], lost1);
      AccountAppend(ids, lost, first, ids1, lost1, rest, ids2, lost1 + LostAtDeltas(ids1, tcs[1..]));
      assert lost1 + LostAtDeltas(ids1, tcs[1..]) == lost + LostAtDeltas(ids, tcs);
    }
  }

  lemma AccountSilent(ids: Entries, lost: multiset<string>, events: seq<StreamEvent>)
    requires forall e | e in events :: e.Token? || e.Reasoning? || e.Done? || e.Error?
    ensures Accounted(ids, lost, events, ids, lost)
  {
    AfterSilent(Held(ids) + lost, events);
  }

  lemma AccountFinish(ids: Entries, choice: Choice, usage: Option<RawUsage>, lost: multiset<string>)
    ensures var (ids1, events) := OnFinish(ids, choice, usage); Accounted(ids, lost, events, ids1, lost)
  {
    if NonEmpty(choice.finishReason).Some? {
      var ends := Ends(Values(ids));
      var done := OnFinish(ids, choice, usage).1[|ends|..];
      HeldIsCounted(ids);
      AfterEnds(Values(ids), Held(ids) + lost, lost);
      AfterSilent(lost, done);
      assert Held([]) + lost == lost;
      AccountAppend(ids, lost, ends, [], lost, done, [], lost);
    }
  }

  lemma AccountChoice(ids: Entries, choice: Choice, usage: Option<RawUsage>, lost: multiset<string>)
    ensures var (ids1, events) := OnChoice(ids, choice, usage);
            Accounted(ids, lost, events, ids1, lost + LostAtDeltas(ids, choice.toolCalls))
  {
    hide Accounted;
    var lost1 := lost + LostAtDeltas(ids, choice.toolCalls);
    var (ids1, calls) := OnToolDeltas(ids, choice.toolCalls);
    var (ids2, end) := OnFinish(ids1, choice, usage);
    AccountSilent(ids, lost, TextEvents(choice));
    AccountToolDeltas(ids, choice.toolCalls, lost);
    AccountFinish(ids1, choice, usage, lost1);
    AccountAppend(ids, lost, TextEvents(choice), ids, lost, calls, ids1, lost1);
    AccountAppend(ids, lost, TextEvents(choice) + calls, ids1, lost1, end, ids2, lost1);
  }

  lemma {:induction false} AccountChoices(ids: Entries, choices: seq<Choice>, usage: Option<RawUsage>,
                                          lost: multiset<string>)
    ensures var (ids1, events) := OnChoices(ids, choices, usage);
            Accounted(ids, lost, events, ids1, lost + LostAtChoices(ids, choices))
    decreases |choices|
  {
    hide Accounted;
    if choices == [] {
      AccountSilent(ids, lost, []);
      assert lost + multiset{} == lost;
    } else {
      var (ids1, first) := OnChoice(ids, choices[0], usage);
      var lost1 := lost + LostAtDeltas(ids, choices[0].toolCalls);
      var (ids2, rest) := OnChoices(ids1, choices[1..], usage);
      AccountChoice(ids, choices[0], usage, lost);
      AccountChoices(ids1, choices[1..], usage, lost1);
      AccountAppend(ids, lost, first, ids1, lost1, rest, ids2, lost1 + LostAtChoices(ids1, choices[1..]));
      assert lost1 + LostAtChoices(ids1, choices[1..]) == lost + LostAtChoices(ids, choices);
    }
  }

  lemma AccountData(decode: Decoder, ids: Entries, frame: Frame, lost: multiset<string>)
    ensures var (ids1, result) := OnData(decode, ids, frame.data);
            Accounted(ids, lost, EventsOf(result), ids1, lost + LostAtFrame(decode, ids, frame))
  {
    hide Accounted;
    var payload := decode(Trim(frame.data));
    if Trim(frame.data) != "[DONE]" && payload.Completion? {
      AccountChoices(ids, payload.choices, payload.usage, lost);
    } else {
      AccountSilent(ids, lost, EventsOf(OnData(decode, ids, frame.data).1));
      assert lost + multiset{} == lost;
    }
  }

  lemma {:induction false} AccountFrames(decode: Decoder, ids: Entries, frames: seq<Frame>, lost: multiset<string>)
    ensures var (ids1, events) := Drive(AsParser(decode), ids, frames);
            Accounted(ids, lost, events, ids1, lost + LostAtFrames(decode, ids, frames))
    decreases |frames|
  {
    hide Accounted;
    if frames == [] {
      AccountSilent(ids, lost, []);
      assert lost + multiset{} == lost;
    } else {
      var (ids1, result) := OnData(decode, ids, frames[0].data);
      var lost1 := lost + LostAtFrame(decode, ids, frames[0]);
      var (ids2, rest) := Drive(AsParser(decode), ids1, frames[1..]);
      AccountData(decode, ids, frames[0], lost);
      AccountFrames(decode, ids1, frames[1..], lost1);
      AccountAppend(ids, lost, EventsOf(result), ids1, lost1, rest, ids2, lost1 + LostAtFrames(decode, ids1, frames[1..]));
      assert lost1 + LostAtFrames(decode, ids1, frames[1..]) == lost + LostAtFrames(decode, ids, frames);
    }
  }

  /** Whatever the frames contain, every fragment and every end names a call that is open. The
      open calls are those the parser remembers, plus those whose index was opened a second
      time before a finish; so without such reopening a finish leaves no call open. */
  lemma LifecycleHolds(decode: Decoder, frames: seq<Frame>)
    ensures var (ids, events) := Drive(AsParser(decode), [], frames);
            After(multiset{}, events).Some?
            && After(multiset{}, events).value == Held(ids) + LostAtFrames(decode, [], frames)
  {
    AccountFrames(decode, [], frames, multiset{});
    assert Held([]) + multiset{} == multiset{};
  }

  /** So with ids that are all different nothing about a call precedes its start or follows its end. */
  lemma CallsLiveOnce(decode: Decoder, frames: seq<Frame>, i: nat, j: nat)
    requires FreshStarts(Drive(AsParser(decode), [], frames).1)
    requires i < j < |Drive(AsParser(decode), [], frames).1|
    ensures var events := Drive(AsParser(decode), [], frames).1;
            (events[i].ToolCallEnd? ==> !About(events[j], events[i].id))
            && (events[j].ToolCallStart? ==> !About(events[i], events[j].id))
  {
    LifecycleHolds(decode, frames);
    OneLifePerId(Drive(AsParser(decode), [], frames).1, i, j);
  }

  // A chunk whose last choice has a finish reason.
  predicate Finishes(decode: Decoder, frame: Frame) {
    var payload := decode(Trim(frame.data));
    Trim(frame.data) != "[DONE]" && payload.Completion? && payload.choices != []
    && NonEmpty(payload.choices[|payload.choices| - 1].finishReason).Some?
  }

  lemma {:induction false} FinishForgets(ids: Entries, choices: seq<Choice>, usage: Option<RawUsage>)
    requires choices != [] && NonEmpty(choices[|choices| - 1].finishReason).Some?
    ensures OnChoices(ids, choices, usage).0 == []
    decreases |choices|
  {
    if |choices| > 1 {
      FinishForgets(OnChoice(ids, choices[0], usage).0, choices[1..], usage);
    }
  }

  /** After a finish no call is open, but for those whose index was opened again before it. */
  lemma FinishClosesCalls(decode: Decoder, frames: seq<Frame>, frame: Frame)
    requires Finishes(decode, frame)
    ensures var (ids, events) := Drive(AsParser(decode), [], frames + [frame]);
            ids == [] && After(multiset{}, events) == Some(LostAtFrames(decode, [], frames + [frame]))
  {
    LifecycleHolds(decode, frames + [frame]);
    DriveSnoc(AsParser(decode), [], frames, frame);
    var payload := decode(Trim(frame.data));
    FinishForgets(Drive(AsParser(decode), [], frames).0, payload.choices, payload.usage);
    var lost := LostAtFrames(decode, [], frames + [frame]);
    assert Held([]) + lost == lost;
  }
}

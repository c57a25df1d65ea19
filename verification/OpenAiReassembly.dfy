/** From OpenAI completion streams back to text and whole tool calls: the parser and the
    collecting loop together, and both behind the chunked SSE stream. */
module OpenAiReassembly {
  import opened Text
  import opened StreamEvents
  import opened SseFraming
  import opened SseStream
  import opened SseChunking
  import opened IndexMap
  import opened OpenAiParser
  import opened ChatComplete
  import opened ToolCallReassembly

  // ---- whole payloads ----

  function AllDeltas(choices: seq<Choice>): seq<ToolDelta> {
    if choices == [] then [] else choices[0].toolCalls + AllDeltas(choices[1..])
  }

  // ---- stretches between finish reasons ----

  // The events about calls, without their ends.
  function CallEvents(events: seq<StreamEvent>): seq<StreamEvent> {
    if events == [] then []
    else (if events[0].ToolCallStart? || events[0].ToolCallDelta? then [events[0]] else []) + CallEvents(events[1..])
  }

  lemma {:induction false} CallEventsAppend(first: seq<StreamEvent>, second: seq<StreamEvent>)
    ensures CallEvents(first + second) == CallEvents(first) + CallEvents(second)
  {
    if first == [] {
      assert first + second == second;
    } else {
      assert (first + second)[1..] == first[1..] + second;
      CallEventsAppend(first[1..], second);
      var own := if first[0].ToolCallStart? || first[0].ToolCallDelta? then [first[0]] else [];
      AppendAssociates(own, CallEvents(first[1..]), CallEvents(second));
    }
  }

  lemma {:induction false} OnlyCallEvents(events: seq<StreamEvent>)
    requires forall e | e in events :: e.ToolCallStart? || e.ToolCallDelta?
    ensures CallEvents(events) == events
  {
    if events != [] {
      OnlyCallEvents(events[1..]);
    }
  }

  lemma {:induction false} NoneAreCallEvents(events: seq<StreamEvent>)
    requires forall e | e in events :: !e.ToolCallStart? && !e.ToolCallDelta?
    ensures CallEvents(events) == []
  {
    if events != [] {
      assert events[0] in events;
      NoneAreCallEvents(events[1..]);
    }
  }

  // They are all that matters for the calls.
  lemma {:induction false} CallEventsDecide(events: seq<StreamEvent>, calls: Builders)
    ensures CallsOf(CallEvents(events), calls) == CallsOf(events, calls)
    decreases |events|
  {
    if events != [] {
      var e := events[0];
      CallEventsDecide(events[1..], AddToCalls(calls, e));
      if e.ToolCallStart? || e.ToolCallDelta? {
        assert CallEvents(events)[1..] == CallEvents(events[1..]);
      } else {
        assert [] + CallEvents(events[1..]) == CallEvents(events[1..]);
      }
    }
  }

  // What the choices say about calls: a finish reason makes the parser forget all of them.
  function OnCalls(ids: Entries, choices: seq<Choice>): (Entries, seq<StreamEvent>)
    decreases |choices|
  {
    if choices == [] then (ids, [])
    else
      var (ids1, first) := OnToolDeltas(ids, choices[0].toolCalls);
      var (ids2, rest) := OnCalls(if NonEmpty(choices[0].finishReason).Some? then [] else ids1, choices[1..]);
      (ids2, first + rest)
  }

  lemma {:induction false} DeltasAreCallEvents(ids: Entries, tcs: seq<ToolDelta>)
    ensures forall e | e in OnToolDeltas(ids, tcs).1 :: e.ToolCallStart? || e.ToolCallDelta?
    decreases |tcs|
  {
    if tcs != [] { DeltasAreCallEvents(OnToolDelta(ids, tcs[0]).0, tcs[1..]); }
  }

  lemma ChoiceCalls(ids: Entries, choice: Choice, usage: Option<RawUsage>)
    ensures CallEvents(OnChoice(ids, choice, usage).1) == OnToolDeltas(ids, choice.toolCalls).1
  {
    var (ids1, deltas) := OnToolDeltas(ids, choice.toolCalls);
    var end := OnFinish(ids1, choice, usage).1;
    EndsAreEnds(Values(ids1));
    NoneAreCallEvents(TextEvents(choice));
    NoneAreCallEvents(end);
    DeltasAreCallEvents(ids, choice.toolCalls);
    OnlyCallEvents(deltas);
    CallEventsAppend(TextEvents(choice) + deltas, end);
    CallEventsAppend(TextEvents(choice), deltas);
    assert [] + deltas + [] == deltas;
  }

  lemma {:induction false} ChoicesCalls(ids: Entries, choices: seq<Choice>, usage: Option<RawUsage>)
    ensures var (ids1, events) := OnChoices(ids, choices, usage); OnCalls(ids, choices) == (ids1, CallEvents(events))
    decreases |choices|
  {
    if choices != [] {
      var (ids1, first) := OnChoice(ids, choices[0], usage);
      ChoiceCalls(ids, choices[0], usage);
      ChoicesCalls(ids1, choices[1..], usage);
      CallEventsAppend(first, OnChoices(ids1, choices[1..], usage).1);
    }
  }

  lemma {:induction false} OnCallsAppend(ids: Entries, first: seq<Choice>, second: seq<Choice>)
    ensures var (ids1, e1) := OnCalls(ids, first);
            var (ids2, e2) := OnCalls(ids1, second);
            OnCalls(ids, first + second) == (ids2, e1 + e2)
    decreases |first|
  {
    hide OnToolDeltas;
    if first == [] {
      assert first + second == second;
      assert [] + OnCalls(ids, second).1 == OnCalls(ids, second).1;
    } else {
      assert (first + second)[1..] == first[1..] + second;
      var (ids1, e0) := OnToolDeltas(ids, first[0].toolCalls);
      var next := if NonEmpty(first[0].finishReason).Some? then [] else ids1;
      OnCallsAppend(next, first[1..], second);
      var (ids2, e1) := OnCalls(next, first[1..]);
      AppendAssociates(e0, e1, OnCalls(ids2, second).1);
    }
  }

  // The deltas up to each finish reason and after the last one; `current` have come already.
  function Stretches(current: seq<ToolDelta>, choices: seq<Choice>): seq<seq<ToolDelta>>
    decreases |choices|
  {
    if choices == [] then [current]
    else
      var longer := current + choices[0].toolCalls;
      if NonEmpty(choices[0].finishReason).Some? then [longer] + Stretches([], choices[1..])
      else Stretches(longer, choices[1..])
  }

  // The events of each stretch by itself.
  function EventsBy(stretches: seq<seq<ToolDelta>>): seq<StreamEvent> {
    if stretches == [] then [] else OnToolDeltas([], stretches[0]).1 + EventsBy(stretches[1..])
  }

  lemma {:induction false} CallsByStretch(current: seq<ToolDelta>, choices: seq<Choice>)
    ensures var (ids, events) := OnToolDeltas([], current);
            EventsBy(Stretches(current, choices)) == events + OnCalls(ids, choices).1
    decreases |choices|
  {
    hide OnToolDeltas;
    var (ids, events) := OnToolDeltas([], current);
    if choices == [] {
      assert [current][1..] == [] && events + [] == events;
    } else {
      var (ids1, first) := OnToolDeltas(ids, choices[0].toolCalls);
      var longer, rest := current + choices[0].toolCalls, choices[1..];
      ToolDeltasAppend([], current, choices[0].toolCalls);
      if NonEmpty(choices[0].finishReason).Some? {
        NoToolDeltas([]);
        CallsByStretch([], rest);
        assert ([longer] + Stretches([], rest))[1..] == Stretches([], rest);
        assert [] + OnCalls([], rest).1 == OnCalls([], rest).1;
        AppendAssociates(events, first, OnCalls([], rest).1);
      } else {
        CallsByStretch(longer, rest);
        AppendAssociates(events, first, OnCalls(ids1, rest).1);
      }
    }
  }

  // ---- whole streams ----

  // Every frame decodes to a completion chunk or is the "[DONE]" sentinel.
  ghost predicate Clean(decode: Decoder, frames: seq<Frame>) {
    forall f | f in frames :: Trim(f.data) == "[DONE]" || decode(Trim(f.data)).Completion?
  }

  function FrameChoices(decode: Decoder, frame: Frame): seq<Choice> {
    var payload := decode(Trim(frame.data));
    if Trim(frame.data) != "[DONE]" && payload.Completion? then payload.choices else []
  }

  function AllChoices(decode: Decoder, frames: seq<Frame>): seq<Choice> {
    if frames == [] then [] else FrameChoices(decode, frames[0]) + AllChoices(decode, frames[1..])
  }

  lemma {:induction false} AllDeltasAppend(first: seq<Choice>, second: seq<Choice>)
    ensures AllDeltas(first + second) == AllDeltas(first) + AllDeltas(second)
  {
    if first == [] {
      assert first + second == second;
    } else {
      assert (first + second)[1..] == first[1..] + second;
      AllDeltasAppend(first[1..], second);
    }
  }

  lemma {:induction false} FramesOnCalls(decode: Decoder, ids: Entries, frames: seq<Frame>)
    requires Clean(decode, frames)
    ensures CallEvents(Drive(AsParser(decode), ids, frames).1) == OnCalls(ids, AllChoices(decode, frames)).1
    decreases |frames|
  {
    hide OnChoices, OnCalls;
    if frames != [] {
      var head, rest := FrameChoices(decode, frames[0]), frames[1..];
      var (ids1, result) := OnData(decode, ids, frames[0].data);
      assert frames[0] in frames;
      var payload := decode(Trim(frames[0].data));
      if Trim(frames[0].data) != "[DONE]" {
        ChoicesCalls(ids, head, payload.usage);
      } else {
        OnNoCalls(ids);
      }
      FramesOnCalls(decode, ids1, rest);
      CallEventsAppend(EventsOf(result), Drive(AsParser(decode), ids1, rest).1);
      OnCallsAppend(ids, head, AllChoices(decode, rest));
    } else {
      OnNoCalls(ids);
    }
  }

  lemma OnNoCalls(ids: Entries)
    ensures OnCalls(ids, []) == (ids, [])
  {
  }

  // The stretches of a whole stream.
  function StretchesOf(decode: Decoder, frames: seq<Frame>): seq<seq<ToolDelta>> {
    Stretches([], AllChoices(decode, frames))
  }

  /** Of everything in a stream only its tool-call deltas matter for the calls, wherever they sit,
      and the finish reasons between them: what starts and extends calls are the events of each
      stretch between two finish reasons, as if it were alone. */
  lemma FramesCalls(decode: Decoder, frames: seq<Frame>)
    requires Clean(decode, frames)
    ensures CallEvents(Drive(AsParser(decode), [], frames).1) == EventsBy(StretchesOf(decode, frames))
  {
    FramesOnCalls(decode, [], frames);
    CallsByStretch([], AllChoices(decode, frames));
    NoToolDeltas([]);
    assert [] + OnCalls([], AllChoices(decode, frames)).1 == OnCalls([], AllChoices(decode, frames)).1;
  }

  // ---- the calls of all stretches ----

  // No id is used in two stretches.
  ghost predicate IdsApart(stretches: seq<seq<ToolDelta>>) {
    forall i, j, tc, u | 0 <= i < j < |stretches| && tc in stretches[i] && u in stretches[j] && tc.id.Some? ::
      tc.id != u.id
  }

  // The calls hold, under each opener's id, its name and the fragments for its index in the same
  // stretch; nothing else.
  ghost predicate AllReassembled(stretches: seq<seq<ToolDelta>>, calls: Builders) {
    && (forall tcs, tc | tcs in stretches && tc in tcs && tc.id.Some? ::
          HasCall(tcs, tc, calls))
    && (forall id | id in calls :: exists tcs, tc | tcs in stretches && tc in tcs :: tc.id == Some(id))
  }

  // Calls that no event is about stay as they are.
  lemma {:induction false} OtherCallsStay(events: seq<StreamEvent>, others: Builders, calls: Builders)
    requires forall e | e in events && (e.ToolCallStart? || e.ToolCallDelta?) :: e.id !in others
    ensures CallsOf(events, others + calls) == others + CallsOf(events, calls)
    decreases |events|
  {
    if events != [] {
      var e := events[0];
      assert e in events;
      assert AddToCalls(others + calls, e) == others + AddToCalls(calls, e);
      OtherCallsStay(events[1..], others, AddToCalls(calls, e));
    }
  }

  // Events about calls carry the ids of their openers.
  lemma {:induction false} EventsOfOpeners(tcs: seq<ToolDelta>)
    ensures forall index | Lookup(OnToolDeltas([], tcs).0, index).Some? ::
              exists tc | tc in tcs :: tc.id == Lookup(OnToolDeltas([], tcs).0, index) && Position(tc) == index
    ensures forall e | e in OnToolDeltas([], tcs).1 && (e.ToolCallStart? || e.ToolCallDelta?) ::
              exists tc | tc in tcs :: tc.id == Some(e.id)
  {
    if tcs != [] {
      var before, tc := tcs[..|tcs| - 1], tcs[|tcs| - 1];
      assert tcs == before + [tc];
      EventsOfOpeners(before);
      ToolDeltasSnoc([], before, tc);
      DeltasAreCallEvents([], tcs);
      var ids := OnToolDeltas([], before).0;
      forall index | Lookup(OnToolDeltas([], tcs).0, index).Some?
        ensures exists u | u in tcs :: u.id == Lookup(OnToolDeltas([], tcs).0, index) && Position(u) == index
      {
        if tc.id.Some? { InsertLookup(ids, Position(tc), tc.id.value, index); }
      }
    }
  }

  lemma {:induction false} EventsOfStretches(stretches: seq<seq<ToolDelta>>)
    ensures forall e | e in EventsBy(stretches) && (e.ToolCallStart? || e.ToolCallDelta?) ::
              exists tcs, tc | tcs in stretches && tc in tcs :: tc.id == Some(e.id)
  {
    hide OnToolDeltas;
    if stretches != [] {
      assert stretches == [stretches[0]] + stretches[1..];
      EventsOfOpeners(stretches[0]);
      EventsOfStretches(stretches[1..]);
      assert stretches[0] in stretches;
    }
  }

  // The first stretch and the others have no call in common.
  lemma NothingInCommon(stretches: seq<seq<ToolDelta>>, tc: ToolDelta, tcs: seq<ToolDelta>, u: ToolDelta)
    requires IdsApart(stretches) && stretches != [] && tc in stretches[0]
    requires tcs in stretches[1..] && u in tcs && tc.id.Some?
    ensures tc.id != u.id
  {
    var j :| 1 <= j < |stretches| && stretches[j] == tcs;
    assert u in stretches[j];
  }

  lemma LaterApart(stretches: seq<seq<ToolDelta>>)
    requires IdsApart(stretches) && stretches != []
    ensures IdsApart(stretches[1..])
  {
    forall i, j, tc, u | 0 <= i < j < |stretches| - 1 && tc in stretches[1..][i] && u in stretches[1..][j]
        && tc.id.Some?
      ensures tc.id != u.id
    {
      assert tc in stretches[i + 1] && u in stretches[j + 1];
    }
  }

  // An id of a later stretch is none of the first one's calls.
  lemma NotOfTheFirst(stretches: seq<seq<ToolDelta>>, first: Builders, tcs: seq<ToolDelta>, u: ToolDelta)
    requires IdsApart(stretches) && stretches != [] && Reassembled(stretches[0], first)
    requires tcs in stretches[1..] && u in tcs && u.id.Some?
    ensures u.id.value !in first
  {
    hide Reassembled, IdsApart;
    if u.id.value in first {
      var tc := OpenerOf(stretches[0], first, u.id.value);
      NothingInCommon(stretches, tc, tcs, u);
    }
  }

  lemma CallOfFirst(stretches: seq<seq<ToolDelta>>, first: Builders, others: Builders, tc: ToolDelta)
    requires IdsApart(stretches) && stretches != []
    requires Reassembled(stretches[0], first) && AllReassembled(stretches[1..], others)
    requires tc in stretches[0] && tc.id.Some?
    ensures HasCall(stretches[0], tc, first + others)
  {
    hide IdsApart, Fragments;
    if tc.id.value in others {
      var later, u :| later in stretches[1..] && u in later && u.id == tc.id;
      NothingInCommon(stretches, tc, later, u);
    }
  }

  // What the stretches build, one before the others.
  lemma FirstAndOthers(stretches: seq<seq<ToolDelta>>, first: Builders, others: Builders)
    requires IdsApart(stretches) && stretches != []
    requires Reassembled(stretches[0], first) && AllReassembled(stretches[1..], others)
    ensures AllReassembled(stretches, first + others)
  {
    hide IdsApart, Fragments, Position;
    assert stretches == [stretches[0]] + stretches[1..];
    forall tcs, tc | tcs in stretches && tc in tcs && tc.id.Some?
      ensures HasCall(tcs, tc, first + others)
    {
      if tcs !in stretches[1..] {
        CallOfFirst(stretches, first, others, tc);
      }
    }
    forall id | id in first + others
      ensures exists tcs, tc | tcs in stretches && tc in tcs :: tc.id == Some(id)
    {
      if id in others {
        var tcs, tc :| tcs in stretches[1..] && tc in tcs && tc.id == Some(id);
        assert tcs in stretches;
      } else {
        var tc := OpenerOf(stretches[0], first, id);
        assert stretches[0] in stretches;
      }
    }
  }

  lemma {:induction false} StretchesReassemble(stretches: seq<seq<ToolDelta>>)
    requires (forall tcs | tcs in stretches :: OpenedOnce(tcs)) && IdsApart(stretches)
    ensures AllReassembled(stretches, CallsOf(EventsBy(stretches), map[]))
  {
    hide OpenedOnce, OnToolDeltas, Reassembled, IdsApart, AllReassembled, CallsOf;
    if stretches == [] {
      NothingToReassemble();
    } else {
      var head, rest := stretches[0], stretches[1..];
      var events := OnToolDeltas([], head).1;
      var first := CallsOf(events, map[]);
      assert head in stretches && forall tcs | tcs in rest :: tcs in stretches;
      DeltasReassemble(head);
      LaterApart(stretches);
      StretchesReassemble(rest);
      CallsOfAppend(events, EventsBy(rest), map[]);
      EventsOfStretches(rest);
      forall e | e in EventsBy(rest) && (e.ToolCallStart? || e.ToolCallDelta?)
        ensures e.id !in first
      {
        var tcs, u :| tcs in rest && u in tcs && u.id == Some(e.id);
        NotOfTheFirst(stretches, first, tcs, u);
      }
      OtherCallsStay(EventsBy(rest), first, map[]);
      assert first + map[] == first;
      FirstAndOthers(stretches, first, CallsOf(EventsBy(rest), map[]));
    }
  }

  lemma NothingToReassemble()
    ensures AllReassembled([], CallsOf([], map[]))
  {
  }

  lemma OpenerOf(tcs: seq<ToolDelta>, calls: Builders, id: string) returns (tc: ToolDelta)
    requires Reassembled(tcs, calls) && id in calls
    ensures tc in tcs && tc.id == Some(id)
  {
    tc :| tc in tcs && tc.id == Some(id);
  }

  // ---- the text of a stream ----

  function AllContent(choices: seq<Choice>): string {
    if choices == [] then "" else OrElse(choices[0].content, "") + AllContent(choices[1..])
  }

  lemma {:induction false} AllContentAppend(first: seq<Choice>, second: seq<Choice>)
    ensures AllContent(first + second) == AllContent(first) + AllContent(second)
  {
    if first == [] {
      assert first + second == second;
    } else {
      assert (first + second)[1..] == first[1..] + second;
      AllContentAppend(first[1..], second);
      AppendAssociates(OrElse(first[0].content, ""), AllContent(first[1..]), AllContent(second));
    }
  }

  lemma {:induction false} DeltasHaveNoTokens(ids: Entries, tcs: seq<ToolDelta>)
    ensures forall e | e in OnToolDeltas(ids, tcs).1 :: !e.Token?
    decreases |tcs|
  {
    if tcs != [] { DeltasHaveNoTokens(OnToolDelta(ids, tcs[0]).0, tcs[1..]); }
  }

  lemma TextOfChoice(choice: Choice)
    ensures AllTokens(TextEvents(choice)) == OrElse(choice.content, "")
  {
    var reasoning := if NonEmpty(choice.reasoning).Some? then [Reasoning(choice.reasoning.value)] else [];
    var content := if NonEmpty(choice.content).Some? then [Token(choice.content.value)] else [];
    NoTokens(reasoning);
    AllTokensAppend(reasoning, content);
    if content != [] {
      assert content[1..] == [];
      assert choice.content.value + "" == choice.content.value;
    }
  }

  lemma ChoiceText(ids: Entries, choice: Choice, usage: Option<RawUsage>)
    ensures AllTokens(OnChoice(ids, choice, usage).1) == OrElse(choice.content, "")
  {
    var (ids1, deltas) := OnToolDeltas(ids, choice.toolCalls);
    var end := OnFinish(ids1, choice, usage).1;
    DeltasHaveNoTokens(ids, choice.toolCalls);
    EndsAreEnds(Values(ids1));
    calc {
      AllTokens(TextEvents(choice) + deltas + end);
      { AllTokensAppend(TextEvents(choice) + deltas, end); NoTokens(end); }
      AllTokens(TextEvents(choice) + deltas) + "";
      { AllTokensAppend(TextEvents(choice), deltas); NoTokens(deltas); }
      AllTokens(TextEvents(choice)) + "" + "";
      { TextOfChoice(choice); }
      OrElse(choice.content, "");
    }
  }

  lemma {:induction false} ChoicesText(ids: Entries, choices: seq<Choice>, usage: Option<RawUsage>)
    ensures AllTokens(OnChoices(ids, choices, usage).1) == AllContent(choices)
    decreases |choices|
  {
    if choices != [] {
      var (ids1, first) := OnChoice(ids, choices[0], usage);
      ChoiceText(ids, choices[0], usage);
      ChoicesText(ids1, choices[1..], usage);
      AllTokensAppend(first, OnChoices(ids1, choices[1..], usage).1);
    }
  }

  lemma {:induction false} FramesText(decode: Decoder, ids: Entries, frames: seq<Frame>)
    requires Clean(decode, frames)
    ensures AllTokens(Drive(AsParser(decode), ids, frames).1) == AllContent(AllChoices(decode, frames))
    decreases |frames|
  {
    if frames != [] {
      var head, rest := FrameChoices(decode, frames[0]), frames[1..];
      var (ids1, result) := OnData(decode, ids, frames[0].data);
      assert frames[0] in frames;
      assert AllTokens(EventsOf(result)) == AllContent(head) by {
        if Trim(frames[0].data) != "[DONE]" {
          ChoicesText(ids, head, decode(Trim(frames[0].data)).usage);
        }
      }
      FramesText(decode, ids1, rest);
      AllTokensAppend(EventsOf(result), Drive(AsParser(decode), ids1, rest).1);
      AllContentAppend(head, AllChoices(decode, rest));
    }
  }

  lemma {:induction false} DeltasHaveNoError(ids: Entries, tcs: seq<ToolDelta>)
    ensures NoError(OnToolDeltas(ids, tcs).1)
    decreases |tcs|
  {
    if tcs != [] { DeltasHaveNoError(OnToolDelta(ids, tcs[0]).0, tcs[1..]); }
  }

  lemma {:induction false} ChoicesHaveNoError(ids: Entries, choices: seq<Choice>, usage: Option<RawUsage>)
    ensures NoError(OnChoices(ids, choices, usage).1)
    decreases |choices|
  {
    if choices != [] {
      DeltasHaveNoError(ids, choices[0].toolCalls);
      EndsAreEnds(Values(OnToolDeltas(ids, choices[0].toolCalls).0));
      ChoicesHaveNoError(OnChoice(ids, choices[0], usage).0, choices[1..], usage);
    }
  }

  lemma {:induction false} FramesHaveNoError(decode: Decoder, ids: Entries, frames: seq<Frame>)
    requires Clean(decode, frames)
    ensures NoError(Drive(AsParser(decode), ids, frames).1)
    decreases |frames|
  {
    if frames != [] {
      assert frames[0] in frames;
      var payload := decode(Trim(frames[0].data));
      if Trim(frames[0].data) != "[DONE]" {
        ChoicesHaveNoError(ids, payload.choices, payload.usage);
      }
      FramesHaveNoError(decode, OnData(decode, ids, frames[0].data).0, frames[1..]);
    }
  }

  // ---- lost fragments ----

  // How much argument text the deltas carry...
  function Sent(tcs: seq<ToolDelta>): nat {
    if tcs == [] then 0 else Sent(tcs[..|tcs| - 1]) + |OrElse(tcs[|tcs| - 1].arguments, "")|
  }

  function SentIn(stretches: seq<seq<ToolDelta>>): nat {
    if stretches == [] then 0 else Sent(stretches[0]) + SentIn(stretches[1..])
  }

  // ... and how much of it the events pass on.
  function Heard(events: seq<StreamEvent>): nat {
    if events == [] then 0
    else (if events[0].ToolCallDelta? then |events[0].fragment| else 0) + Heard(events[1..])
  }

  lemma {:induction false} HeardAppend(first: seq<StreamEvent>, second: seq<StreamEvent>)
    ensures Heard(first + second) == Heard(first) + Heard(second)
  {
    if first == [] {
      assert first + second == second;
    } else {
      assert (first + second)[1..] == first[1..] + second;
      HeardAppend(first[1..], second);
    }
  }

  lemma {:induction false} CallEventsAreHeard(events: seq<StreamEvent>)
    ensures Heard(CallEvents(events)) == Heard(events)
  {
    if events != [] {
      var e := events[0];
      CallEventsAreHeard(events[1..]);
      if e.ToolCallStart? || e.ToolCallDelta? {
        assert CallEvents(events)[1..] == CallEvents(events[1..]);
      } else {
        assert [] + CallEvents(events[1..]) == CallEvents(events[1..]);
      }
    }
  }

  // The parser knows an index exactly when it has been opened.
  lemma {:induction false} KnownIsOpened(tcs: seq<ToolDelta>, index: nat)
    ensures Lookup(OnToolDeltas([], tcs).0, index).Some? <==>
              exists j | 0 <= j < |tcs| :: tcs[j].id.Some? && Position(tcs[j]) == index
  {
    if tcs != [] {
      var n := |tcs| - 1;
      var before, tc := tcs[..n], tcs[n];
      assert tcs == before + [tc];
      KnownIsOpened(before, index);
      ToolDeltasSnoc([], before, tc);
      if tc.id.Some? {
        InsertLookup(OnToolDeltas([], before).0, Position(tc), tc.id.value, index);
      }
    }
  }

  lemma FollowOpenersSnoc(tcs: seq<ToolDelta>, tc: ToolDelta)
    ensures FollowOpeners(tcs + [tc]) <==>
              FollowOpeners(tcs)
              && (NonEmpty(tc.arguments).Some? ==> Lookup(OnToolDeltas([], tcs + [tc]).0, Position(tc)).Some?)
  {
    var longer, n := tcs + [tc], |tcs|;
    KnownIsOpened(longer, Position(tc));
    assert longer[n] == tc && forall k | 0 <= k < n :: longer[k] == tcs[k];
    assert FollowsOpener(longer, n) <==>
             (NonEmpty(tc.arguments).Some? ==> Lookup(OnToolDeltas([], longer).0, Position(tc)).Some?);
    forall k | 0 <= k < n
      ensures FollowsOpener(longer, k) <==> FollowsOpener(tcs, k)
    {
      if FollowsOpener(longer, k) && NonEmpty(tcs[k].arguments).Some? {
        var j :| 0 <= j <= k && longer[j].id.Some? && Position(longer[j]) == Position(longer[k]);
        assert tcs[j] == longer[j];
      }
      if FollowsOpener(tcs, k) && NonEmpty(tcs[k].arguments).Some? {
        var j :| 0 <= j <= k && tcs[j].id.Some? && Position(tcs[j]) == Position(tcs[k]);
        assert longer[j] == tcs[j];
      }
    }
  }

  lemma HeardOfDelta(ids: Entries, tc: ToolDelta)
    ensures var (ids1, events) := OnToolDelta(ids, tc);
            Heard(events) == if Lookup(ids1, Position(tc)).Some? then |OrElse(tc.arguments, "")| else 0
  {
    var (ids1, events) := OnToolDelta(ids, tc);
    HeardAppend(StartOf(tc), FragmentOf(ids1, tc));
  }

  // Among the deltas of one stretch.
  lemma {:induction false} LostInStretch(tcs: seq<ToolDelta>)
    ensures Heard(OnToolDeltas([], tcs).1) <= Sent(tcs)
    ensures Heard(OnToolDeltas([], tcs).1) == Sent(tcs) <==> FollowOpeners(tcs)
  {
    if tcs != [] {
      hide OnToolDelta, FollowOpeners, Heard, Position, Lookup;
      var n := |tcs| - 1;
      var before, tc := tcs[..n], tcs[n];
      assert tcs == before + [tc];
      LostInStretch(before);
      var (ids, events) := OnToolDeltas([], before);
      ToolDeltasSnoc([], before, tc);
      HeardAppend(events, OnToolDelta(ids, tc).1);
      HeardOfDelta(ids, tc);
      FollowOpenersSnoc(before, tc);
    }
  }

  lemma {:induction false} LostInStretches(stretches: seq<seq<ToolDelta>>)
    ensures Heard(EventsBy(stretches)) <= SentIn(stretches)
    ensures Heard(EventsBy(stretches)) == SentIn(stretches) <==> forall tcs | tcs in stretches :: FollowOpeners(tcs)
  {
    hide OnToolDeltas, FollowOpeners, Sent;
    if stretches != [] {
      assert stretches == [stretches[0]] + stretches[1..];
      LostInStretch(stretches[0]);
      LostInStretches(stretches[1..]);
      HeardAppend(OnToolDeltas([], stretches[0]).1, EventsBy(stretches[1..]));
    }
  }

  /** In any stream of completion chunks no argument text is lost exactly when every fragment comes
      after the opener of its index, with no finish reason in between. */
  lemma NoFragmentIsLost(decode: Decoder, frames: seq<Frame>)
    requires Clean(decode, frames)
    ensures Heard(Drive(AsParser(decode), [], frames).1) == SentIn(StretchesOf(decode, frames))
            <==> forall tcs | tcs in StretchesOf(decode, frames) :: FollowOpeners(tcs)
  {
    FramesCalls(decode, frames);
    CallEventsAreHeard(Drive(AsParser(decode), [], frames).1);
    LostInStretches(StretchesOf(decode, frames));
  }

  /** A fragment that comes after a finish reason is lost although its call was opened before. */
  lemma LateFragmentIsLost(index: nat, id: string, name: string, text: string, usage: Option<RawUsage>)
    requires text != ""
    ensures var opener := ToolDelta(Some(index), Some(id), Some(name), None);
            var fragment := ToolDelta(Some(index), None, None, Some(text));
            var choices := [Choice(None, None, [opener], Some("tool_calls")), Choice(None, None, [fragment], None)];
            Fragments(AllDeltas(choices), Position(opener)) == text
            && CallsOf(OnChoices([], choices, usage).1, map[]) == map[id := ToolCallBuilder(name, "")]
  {
    hide OnToolDeltas, OnChoices, CallEvents, Fragments;
    var opener := ToolDelta(Some(index), Some(id), Some(name), None);
    var fragment := ToolDelta(Some(index), None, None, Some(text));
    var first, second := Choice(None, None, [opener], Some("tool_calls")), Choice(None, None, [fragment], None);
    FragmentsOfTwo(opener, fragment);
    assert [first, second][1..] == [second] && [second][1..] == [];
    assert AllDeltas([first, second]) == [opener] + [fragment] by {
      assert [fragment] + AllDeltas([]) == [fragment];
    }
    OneDelta([], opener);
    OneDelta([], fragment);
    var started := [ToolCallStart(id, name)];
    assert OnToolDelta([], fragment).1 == [];
    assert OnCalls([], [second]).1 == [];
    assert started + [] == started;
    assert OnCalls([], [first, second]).1 == started;
    ChoicesCalls([], [first, second], usage);
    CallEventsDecide(OnChoices([], [first, second], usage).1, map[]);
    assert started[1..] == [];
  }

  lemma OneDelta(ids: Entries, tc: ToolDelta)
    ensures OnToolDeltas(ids, [tc]) == OnToolDelta(ids, tc)
  {
    var (ids1, events) := OnToolDelta(ids, tc);
    assert [tc][1..] == [] && OnToolDeltas(ids1, []) == (ids1, []) && events + [] == events;
  }

  lemma FragmentsOfTwo(opener: ToolDelta, fragment: ToolDelta)
    requires Position(opener) == Position(fragment) && opener.arguments == None
    ensures Fragments([opener] + [fragment], Position(opener)) == OrElse(fragment.arguments, "")
  {
    FragmentsSnoc([], opener, Position(opener));
    assert [] + [opener] == [opener];
    FragmentsSnoc([opener], fragment, Position(opener));
  }

  // ---- whole responses ----

  // A well-formed completion stream: completion chunks only; between two finish reasons every
  // index opened once and before any fragment for it; every id used once.
  ghost predicate WellFormed(decode: Decoder, frames: seq<Frame>) {
    var stretches := StretchesOf(decode, frames);
    Clean(decode, frames) && (forall tcs | tcs in stretches :: OpenedOnce(tcs)) && IdsApart(stretches)
  }

  // What a well-formed stream amounts to.
  lemma FramesReassemble(decode: Decoder, frames: seq<Frame>)
    requires WellFormed(decode, frames)
    ensures var r := Collect(Drive(AsParser(decode), [], frames).1, NOTHING);
            r.Response? && OrElse(r.content, "") == AllContent(AllChoices(decode, frames))
            && AllReassembled(StretchesOf(decode, frames), if r.toolCalls.Some? then r.toolCalls.value else map[])
  {
    hide OpenedOnce, IdsApart, AllReassembled, CallEvents, EventsBy;
    var events := Drive(AsParser(decode), [], frames).1;
    FramesHaveNoError(decode, [], frames);
    ResponseIsComplete(events);
    FramesText(decode, [], frames);
    FramesCalls(decode, frames);
    CallEventsDecide(events, map[]);
    StretchesReassemble(StretchesOf(decode, frames));
  }

  /** End to end: from a response body of any length cut into any chunks to the collected response.
      If the events form a well-formed completion stream, the response carries exactly the text and the
      tool calls it describes: all content in order, and for each opener's id its name and the
      in-order concatenation of the fragments for its index, however the indices are
      interleaved and wherever the chunks are cut. */
  lemma StreamedToolCallsReassemble(decode: Decoder, chunks: seq<string>)
    requires NeverOverflows(chunks)
    ensures EachFits(Pieces(Received(chunks))) ==>
              Delivered(chunks) + Flushed(chunks) == Frames(AllEvents(Concat(chunks)))
    ensures var frames := Delivered(chunks) + Flushed(chunks);
            WellFormed(decode, frames) ==>
              var r := Collect(RunToEnd(AsParser(decode), [], chunks).1, NOTHING);
              r.Response? && OrElse(r.content, "") == AllContent(AllChoices(decode, frames))
              && AllReassembled(StretchesOf(decode, frames), if r.toolCalls.Some? then r.toolCalls.value else map[])
  {
    var frames := Delivered(chunks) + Flushed(chunks);
    WholeTextArrives(chunks);
    RunToEndIsDrive(AsParser(decode), [], chunks);
    if WellFormed(decode, frames) {
      FramesReassemble(decode, frames);
    }
  }

  // ---- the order of the events ----

  // The ids of the calls the deltas open, in order.
  function OpenerIds(tcs: seq<ToolDelta>): seq<string> {
    if tcs == [] then []
    else
      var last := tcs[|tcs| - 1];
      OpenerIds(tcs[..|tcs| - 1]) + if last.id.Some? then [last.id.value] else []
  }

  lemma {:induction false} NewKeyGoesLast(m: Entries, key: nat, value: string)
    requires Lookup(m, key) == None
    ensures Values(Insert(m, key, value)) == Values(m) + [value]
  {
    if m != [] {
      NewKeyGoesLast(m[1..], key, value);
      assert ([m[0]] + Insert(m[1..], key, value))[1..] == Insert(m[1..], key, value);
    }
  }

  lemma {:induction false} RememberedInOrder(tcs: seq<ToolDelta>)
    requires OpenedOnce(tcs)
    ensures Values(OnToolDeltas([], tcs).0) == OpenerIds(tcs)
  {
    hide OpenedOnce, Values, Insert;
    if tcs == [] {
      NoToolDeltas([]);
      NoValues();
    } else {
      var before, tc := tcs[..|tcs| - 1], tcs[|tcs| - 1];
      assert tcs == before + [tc];
      OpenedOncePrefix(tcs, |tcs| - 1);
      RememberedInOrder(before);
      ToolDeltasSnoc([], before, tc);
      DeltasReassemble(before);
      if tc.id.Some? {
        OpensUnusedIndex(before, tc);
        NewKeyGoesLast(OnToolDeltas([], before).0, Position(tc), tc.id.value);
      }
    }
  }

  lemma NoValues()
    ensures Values([]) == []
  {
  }

  /** A choice tells its reasoning and text, then its calls as they come, and on a finish reason an
      end for each call in the order in which they were opened, and Done at last. */
  lemma ChoiceInOrder(tcs: seq<ToolDelta>, choice: Choice, usage: Option<RawUsage>)
    returns (text: seq<StreamEvent>, calls: seq<StreamEvent>, done: StreamEvent)
    requires OpenedOnce(tcs + choice.toolCalls) && NonEmpty(choice.finishReason).Some?
    ensures OnChoice(OnToolDeltas([], tcs).0, choice, usage).1
         == text + calls + Ends(OpenerIds(tcs + choice.toolCalls)) + [done]
    ensures forall e | e in text :: e.Reasoning? || e.Token?
    ensures forall e | e in calls :: e.ToolCallStart? || e.ToolCallDelta?
    ensures done.Done?
  {
    hide OpenedOnce, OnToolDeltas, OpenerIds, Ends, Values;
    var ids := OnToolDeltas([], tcs).0;
    calls := OnToolDeltas(ids, choice.toolCalls).1;
    ToolDeltasAppend([], tcs, choice.toolCalls);
    RememberedInOrder(tcs + choice.toolCalls);
    DeltasAreCallEvents(ids, choice.toolCalls);
    text := TextEvents(choice);
    done := Done(choice.finishReason.value, if usage.Some? then Some(ToUsage(usage.value)) else None);
    AppendAssociates(text + calls, Ends(OpenerIds(tcs + choice.toolCalls)), [done]);
  }
}

/** Collecting a complete response from a stream of events. */
module ChatComplete {
  import opened Text
  import opened StreamEvents

  datatype ToolCallBuilder = ToolCallBuilder(name: string, arguments: string)

  type Builders = map<string, ToolCallBuilder>

  datatype Collected = Collected(
    content: string, reasoning: string, calls: Builders, finishReason: string, usage: Option<TokenUsage>)

  const NOTHING := Collected("", "", map[], "unknown", None)

  datatype Outcome =
    | Response(content: Option<string>, reasoning: Option<string>, toolCalls: Option<Builders>,
               finishReason: string, usage: Option<TokenUsage>)
    | ProviderUnavailable(reason: string)
    | StreamFailed(message: string)

  // ---- specification ----

  function AddToCalls(calls: Builders, event: StreamEvent): Builders {
    match event
    case ToolCallStart(id, name) => calls[id := ToolCallBuilder(name, "")]
    case ToolCallDelta(id, fragment) =>
      if id in calls then calls[id := calls[id].(arguments := calls[id].arguments + fragment)] else calls
    case _ => calls
  }

  function Add(c: Collected, event: StreamEvent): Collected {
    match event
    case Token(text) => c.(content := c.content + text)
    case Reasoning(text) => c.(reasoning := c.reasoning + text)
    case Done(reason, usage) => c.(finishReason := reason, usage := usage)
    case _ => c.(calls := AddToCalls(c.calls, event))
  }

  predicate HasContent(c: Collected) {
    c.content != "" || c.calls != map[]
  }

  function Finish(c: Collected): Outcome {
    Response(if c.content == "" then None else Some(c.content),
             if c.reasoning == "" then None else Some(c.reasoning),
             if c.calls == map[] then None else Some(c.calls),
             c.finishReason, c.usage)
  }

  // An error ends the stream; what has been collected so far is kept, if there is anything.
  function OnError(c: Collected, message: string): Outcome {
    if HasContent(c) then
      if !Contains(message, "Stream ended") && c.finishReason == "unknown"
      then Finish(c.(finishReason := "stream_lost"))
      else Finish(c)
    else if Contains(message, "Stream ended") || Contains(message, "error sending request")
         || Contains(message, "connection") || Contains(message, "timeout") || Contains(message, "reset")
    then ProviderUnavailable(message)
    else StreamFailed(message)
  }

  function Collect(events: seq<StreamEvent>, c: Collected): Outcome
    decreases |events|
  {
    if events == [] then Finish(c)
    else if events[0].Error? then OnError(c, events[0].message)
    else Collect(events[1..], Add(c, events[0]))
  }

  /** The event loop of `chat_complete`. */
  method ChatComplete(events: seq<StreamEvent>) returns (r: Outcome)
    ensures r == Collect(events, NOTHING)
  {
    var content, reasoning, calls, finishReason, usage := "", "", map[], "unknown", None;
    var i := 0;
    while i < |events|
      invariant 0 <= i <= |events|
      invariant Collect(events[i..], Collected(content, reasoning, calls, finishReason, usage)) == Collect(events, NOTHING)
    {
      assert events[i..][1..] == events[i + 1..];
      match events[i] {
        case Token(text) => content := content + text;
        case Reasoning(text) => reasoning := reasoning + text;
        case ToolCallStart(id, name) => calls := calls[id := ToolCallBuilder(name, "")];
        case ToolCallDelta(id, fragment) =>
          if id in calls {
            calls := calls[id := ToolCallBuilder(calls[id].name, calls[id].arguments + fragment)];
          }
        case ToolCallEnd(_) =>
        case Done(reason, tokens) => finishReason, usage := reason, tokens;
        case Error(message) =>
          var hasContent := content != "" || calls != map[];
          if Contains(message, "Stream ended") {
            if !hasContent {
              return ProviderUnavailable(message);
            }
            return Finish(Collected(content, reasoning, calls, finishReason, usage));
          }
          if hasContent {
            if finishReason == "unknown" {
              finishReason := "stream_lost";
            }
            return Finish(Collected(content, reasoning, calls, finishReason, usage));
          }
          if Contains(message, "error sending request") || Contains(message, "connection")
             || Contains(message, "timeout") || Contains(message, "reset") {
            return ProviderUnavailable(message);
          }
          return StreamFailed(message);
      }
      i := i + 1;
    }
    return Finish(Collected(content, reasoning, calls, finishReason, usage));
  }

  // ---- what is collected, kind by kind ----

  function AllTokens(events: seq<StreamEvent>): string {
    if events == [] then ""
    else (if events[0].Token? then events[0].content else "") + AllTokens(events[1..])
  }

  function CallsOf(events: seq<StreamEvent>, calls: Builders): Builders
    decreases |events|
  {
    if events == [] then calls else CallsOf(events[1..], AddToCalls(calls, events[0]))
  }

  lemma {:induction false} CallsOfAppend(first: seq<StreamEvent>, second: seq<StreamEvent>, calls: Builders)
    ensures CallsOf(first + second, calls) == CallsOf(second, CallsOf(first, calls))
    decreases |first|
  {
    if first == [] {
      assert first + second == second;
    } else {
      assert (first + second)[1..] == first[1..] + second;
      CallsOfAppend(first[1..], second, AddToCalls(calls, first[0]));
    }
  }

  ghost predicate NoError(events: seq<StreamEvent>) {
    forall e | e in events :: !e.Error?
  }

  function AllReasoning(events: seq<StreamEvent>): string {
    if events == [] then ""
    else (if events[0].Reasoning? then events[0].thought else "") + AllReasoning(events[1..])
  }

  function LastDone(events: seq<StreamEvent>): (d: Option<StreamEvent>)
    ensures d.Some? ==> d.value.Done?
  {
    if events == [] then None
    else
      var later := LastDone(events[1..]);
      if later == None && events[0].Done? then Some(events[0]) else later
  }

  // What the events add to what is there: texts in order, calls as built, and the last Done.
  function Gathered(events: seq<StreamEvent>, c: Collected): Collected {
    var last := LastDone(events);
    Collected(c.content + AllTokens(events), c.reasoning + AllReasoning(events), CallsOf(events, c.calls),
              if last.Some? then last.value.finishReason else c.finishReason,
              if last.Some? then last.value.usage else c.usage)
  }

  lemma GatheredStep(events: seq<StreamEvent>, c: Collected)
    requires events != [] && !events[0].Error?
    ensures Gathered(events, c) == Gathered(events[1..], Add(c, events[0]))
  {
    var e, rest := events[0], events[1..];
    AppendAssociates(c.content, if e.Token? then e.content else "", AllTokens(rest));
    AppendAssociates(c.reasoning, if e.Reasoning? then e.thought else "", AllReasoning(rest));
    assert c.content + "" == c.content && c.reasoning + "" == c.reasoning;
  }

  /** An error ends the collecting with exactly what the events before it have brought. */
  lemma {:induction false} ErrorEndsCollecting(before: seq<StreamEvent>, message: string, after: seq<StreamEvent>,
                                               c: Collected)
    requires NoError(before)
    ensures Collect(before + [Error(message)] + after, c) == OnError(Gathered(before, c), message)
    decreases |before|
  {
    var all := before + [Error(message)] + after;
    if before == [] {
      assert all[0] == Error(message);
      assert c.content + "" == c.content && c.reasoning + "" == c.reasoning;
    } else {
      assert all[0] == before[0] && all[1..] == before[1..] + [Error(message)] + after;
      GatheredStep(before, c);
      ErrorEndsCollecting(before[1..], message, after, Add(c, before[0]));
    }
  }

  lemma {:induction false} CollectIsGathered(events: seq<StreamEvent>, c: Collected)
    requires NoError(events)
    ensures Collect(events, c) == Finish(Gathered(events, c))
    decreases |events|
  {
    if events == [] {
      assert c.content + "" == c.content && c.reasoning + "" == c.reasoning;
    } else {
      GatheredStep(events, c);
      CollectIsGathered(events[1..], Add(c, events[0]));
    }
  }

  /** Without an error event the response carries all text in order, all calls built, and the
      reason and usage of the last Done. */
  lemma ResponseIsComplete(events: seq<StreamEvent>)
    requires NoError(events)
    ensures var r := Collect(events, NOTHING);
            var last := LastDone(events);
            r.Response?
            && OrElse(r.content, "") == AllTokens(events) && OrElse(r.reasoning, "") == AllReasoning(events)
            && (if r.toolCalls.Some? then r.toolCalls.value else map[]) == CallsOf(events, map[])
            && r.finishReason == (if last.Some? then last.value.finishReason else "unknown")
            && r.usage == (if last.Some? then last.value.usage else None)
            && r.content != Some("") && r.reasoning != Some("") && r.toolCalls != Some(map[])
  {
    CollectIsGathered(events, NOTHING);
    assert "" + AllTokens(events) == AllTokens(events) && "" + AllReasoning(events) == AllReasoning(events);
  }

  // Something arrived that is worth keeping.
  predicate Substantial(event: StreamEvent) {
    (event.Token? && event.content != "") || event.ToolCallStart?
  }

  lemma {:induction false} FailsFrom(events: seq<StreamEvent>, c: Collected)
    ensures !Collect(events, c).Response? <==>
            !HasContent(c)
            && exists k | 0 <= k < |events| :: events[k].Error? && forall j | 0 <= j < k ::
                !events[j].Error? && !Substantial(events[j])
    decreases |events|
  {
    if events == [] || events[0].Error? {
    } else {
      var d, rest := Add(c, events[0]), events[1..];
      FailsFrom(rest, d);
      assert HasContent(d) <==> HasContent(c) || Substantial(events[0]) by {
        if events[0].ToolCallStart? {
          assert events[0].id in d.calls;
        }
        if events[0].ToolCallDelta? && events[0].id in c.calls {
          assert events[0].id in d.calls;
        }
      }
      if !Collect(rest, d).Response? {
        var k :| 0 <= k < |rest| && rest[k].Error? && forall j | 0 <= j < k :: !rest[j].Error? && !Substantial(rest[j]);
        assert events[k + 1] == rest[k];
        forall j | 0 <= j < k + 1
          ensures !events[j].Error? && !Substantial(events[j])
        {
          if j > 0 { assert events[j] == rest[j - 1]; }
        }
      }
      if k :|
        0 <= k < |events| && events[k].Error?
        && forall j | 0 <= j < k :: !events[j].Error? && !Substantial(events[j])
      {
        assert rest[k - 1] == events[k];
        forall j | 0 <= j < k - 1
          ensures !rest[j].Error? && !Substantial(rest[j])
        {
          assert rest[j] == events[j + 1];
        }
      }
    }
  }

  /** The request fails exactly when an error arrives before any text and any tool call. */
  lemma FailsIffNothingWasCollected(events: seq<StreamEvent>)
    ensures !Collect(events, NOTHING).Response? <==>
            exists k | 0 <= k < |events| :: events[k].Error?
                && forall j | 0 <= j < k :: !events[j].Error? && !Substantial(events[j])
  {
    FailsFrom(events, NOTHING);
  }

  // ---- streams that break ----

  lemma {:induction false} ContentIsSubstantial(events: seq<StreamEvent>, c: Collected)
    requires NoError(events)
    ensures HasContent(Gathered(events, c)) <==> HasContent(c) || exists e | e in events :: Substantial(e)
    decreases |events|
  {
    if events == [] {
      assert c.content + "" == c.content;
    } else {
      var e, rest := events[0], events[1..];
      GatheredStep(events, c);
      ContentIsSubstantial(rest, Add(c, e));
      assert events == [e] + rest;
      assert HasContent(Add(c, e)) <==> HasContent(c) || Substantial(e) by {
        if e.ToolCallStart? || (e.ToolCallDelta? && e.id in c.calls) {
          assert e.id in Add(c, e).calls;
        }
      }
    }
  }

  // Something was sent that is worth keeping.
  predicate AnythingIn(events: seq<StreamEvent>) {
    exists e | e in events :: Substantial(e)
  }

  // The phrases that tell that the provider cannot be reached.
  predicate Unreachable(message: string) {
    exists phrase | phrase in ["Stream ended", "error sending request", "connection", "timeout", "reset"] ::
      Contains(message, phrase)
  }

  /** What a stream that breaks after some text or some call is worth: everything that came before
      the error. The reason is the one of the last Done; without any it is "stream_lost", unless
      the message says that the stream ended. */
  lemma BrokenStreamIsKept(before: seq<StreamEvent>, message: string, after: seq<StreamEvent>)
    requires NoError(before) && AnythingIn(before)
    ensures var r := Collect(before + [Error(message)] + after, NOTHING);
            var last := LastDone(before);
            var reason := if last.Some? then last.value.finishReason else "unknown";
            r.Response?
            && r.content == (if AllTokens(before) == "" then None else Some(AllTokens(before)))
            && r.reasoning == (if AllReasoning(before) == "" then None else Some(AllReasoning(before)))
            && r.toolCalls == (if CallsOf(before, map[]) == map[] then None else Some(CallsOf(before, map[])))
            && r.usage == (if last.Some? then last.value.usage else None)
            && r.finishReason == if reason == "unknown" && !Contains(message, "Stream ended") then "stream_lost" else reason
  {
    hide CallsOf, Contains;
    ErrorEndsCollecting(before, message, after, NOTHING);
    ContentIsSubstantial(before, NOTHING);
    assert "" + AllTokens(before) == AllTokens(before) && "" + AllReasoning(before) == AllReasoning(before);
  }

  /** One that breaks before is an error, and which one the message tells. */
  lemma BrokenStreamFails(before: seq<StreamEvent>, message: string, after: seq<StreamEvent>)
    requires NoError(before) && !AnythingIn(before)
    ensures Collect(before + [Error(message)] + after, NOTHING)
         == if Unreachable(message) then ProviderUnavailable(message) else StreamFailed(message)
  {
    hide CallsOf, Contains, Unreachable, AnythingIn, Gathered;
    ErrorEndsCollecting(before, message, after, NOTHING);
    ContentIsSubstantial(before, NOTHING);
    UnreachableMeans(message);
    NothingIn(before);
  }

  lemma NothingIn(events: seq<StreamEvent>)
    ensures AnythingIn(events) <==> exists e | e in events :: Substantial(e)
    ensures !HasContent(NOTHING)
  {
  }

  lemma UnreachableMeans(m: string)
    ensures Unreachable(m) <==>
              Contains(m, "Stream ended") || Contains(m, "error sending request") || Contains(m, "connection")
              || Contains(m, "timeout") || Contains(m, "reset")
  {
    hide Contains;
    var phrases := ["Stream ended", "error sending request", "connection", "timeout", "reset"];
    assert forall i | 0 <= i < 5 :: phrases[i] in phrases;
    assert phrases[0] in phrases && phrases[1] in phrases && phrases[2] in phrases && phrases[3] in phrases;
    assert phrases[4] in phrases;
  }
}

/** From Gemini streams back to text and function calls. Calls arrive whole and are numbered by
    the parser in order of arrival. */
module GeminiReassembly {
  import opened Text
  import opened StreamEvents
  import opened SseFraming
  import opened SseStream
  import opened SseChunking
  import opened IndexMap
  import opened ChatComplete
  import opened GeminiParser
  import R = ToolCallReassembly

  // ---- what the frames say ----

  function CallsIn(parts: seq<Part>): seq<FunctionCall> {
    if parts == [] then []
    else
      (if !parts[0].thought
          && parts[0].functionCall.Some? then [parts[0].functionCall.value] else []) + CallsIn(parts[1..])
  }

  function TextIn(parts: seq<Part>): string {
    if parts == [] then "" else (if parts[0].thought then "" else OrElse(parts[0].text, "")) + TextIn(parts[1..])
  }

  function PartsOf(decode: Decoder, frame: Frame): seq<Part> {
    var payload := decode(Trim(frame.data));
    if Trim(frame.data) != "[DONE]" && Trim(frame.data) != "" && payload.Response? && payload.candidate.Some?
    then payload.candidate.value.parts
    else []
  }

  function AllParts(decode: Decoder, frames: seq<Frame>): seq<Part> {
    if frames == [] then [] else PartsOf(decode, frames[0]) + AllParts(decode, frames[1..])
  }

  // No frame is malformed or reports an error.
  ghost predicate Clean(decode: Decoder, frames: seq<Frame>) {
    forall f | f in frames :: Trim(f.data) == "[DONE]" || Trim(f.data) == "" || decode(Trim(f.data)).Response?
  }

  // ---- the calls ----

  function IdOf(call: FunctionCall, n: nat): string {
    CallId(OrElse(call.name, ""), n)
  }

  function BuilderOf(call: FunctionCall): ToolCallBuilder {
    ToolCallBuilder(OrElse(call.name, ""), call.arguments)
  }

  // The calls, numbered from `n` on.
  function Numbered(builders: Builders, calls: seq<FunctionCall>, n: nat): Builders
    decreases |calls|
  {
    if calls == [] then builders else Numbered(builders[IdOf(calls[0], n) := BuilderOf(calls[0])], calls[1..], n + 1)
  }

  lemma {:induction false} NumberedAppend(builders: Builders, first: seq<FunctionCall>, second: seq<FunctionCall>,
                                          n: nat)
    ensures Numbered(builders, first + second, n) == Numbered(Numbered(builders, first, n), second, n + |first|)
    decreases |first|
  {
    if first == [] {
      assert first + second == second;
    } else {
      assert (first + second)[1..] == first[1..] + second;
      NumberedAppend(builders[IdOf(first[0], n) := BuilderOf(first[0])], first[1..], second, n + 1);
    }
  }

  lemma {:induction false} CallsInAppend(first: seq<Part>, second: seq<Part>)
    ensures CallsIn(first + second) == CallsIn(first) + CallsIn(second)
  {
    if first == [] {
      assert first + second == second;
    } else {
      assert (first + second)[1..] == first[1..] + second;
      CallsInAppend(first[1..], second);
      var own := if !first[0].thought && first[0].functionCall.Some? then [first[0].functionCall.value] else [];
      AppendAssociates(own, CallsIn(first[1..]), CallsIn(second));
    }
  }

  lemma {:induction false} TextInAppend(first: seq<Part>, second: seq<Part>)
    ensures TextIn(first + second) == TextIn(first) + TextIn(second)
  {
    if first == [] {
      assert first + second == second;
    } else {
      assert (first + second)[1..] == first[1..] + second;
      TextInAppend(first[1..], second);
      var own := if first[0].thought then "" else OrElse(first[0].text, "");
      AppendAssociates(own, TextIn(first[1..]), TextIn(second));
    }
  }

  lemma PartCalls(s: State, part: Part, builders: Builders)
    ensures var (t, events) := OnPart(s, part);
            CallsOf(events, builders) == Numbered(builders, CallsIn([part]), s.counter)
            && t.counter == s.counter + |CallsIn([part])|
            && AllTokens(events) == TextIn([part]) && NoError(events)
  {
    var (t, events) := OnPart(s, part);
    assert [part][1..] == [] && |events| <= 3;
    var text := if !part.thought && NonEmpty(part.text).Some? then [Token(part.text.value)] else [];
    if part.thought {
      R.NoTokens(events);
      R.NoCallEvents(events, builders);
    } else if part.functionCall == None {
      R.NoCallEvents(events, builders);
      TextTokens(text);
    } else {
      var call := part.functionCall.value;
      var id := IdOf(call, s.counter);
      var pair := [ToolCallStart(id, OrElse(call.name, "")), ToolCallDelta(id, call.arguments)];
      CallsOfAppend(text, pair, builders);
      R.AllTokensAppend(text, pair);
      R.NoCallEvents(text, builders);
      R.NoTokens(pair);
      TextTokens(text);
      PairBuilds(id, call, builders);
      assert CallsIn([part])[1..] == [];
    }
  }

  lemma TextTokens(text: seq<StreamEvent>)
    requires |text| <= 1 && forall e | e in text :: e.Token?
    ensures AllTokens(text) == if text == [] then "" else text[0].content
  {
    if text != [] {
      assert text[1..] == [] && text[0].content + "" == text[0].content;
    }
  }

  lemma PairBuilds(id: string, call: FunctionCall, builders: Builders)
    ensures CallsOf([ToolCallStart(id, OrElse(call.name, "")), ToolCallDelta(id, call.arguments)], builders)
         == builders[id := BuilderOf(call)]
  {
    var start, delta := ToolCallStart(id, OrElse(call.name, "")), ToolCallDelta(id, call.arguments);
    assert [start, delta][1..] == [delta] && [delta][1..] == [];
    var started := AddToCalls(builders, start);
    assert "" + call.arguments == call.arguments;
    assert AddToCalls(started, delta) == builders[id := BuilderOf(call)];
    assert CallsOf([delta], started) == AddToCalls(started, delta);
  }

  lemma {:induction false} PartsCalls(s: State, parts: seq<Part>, builders: Builders)
    ensures var (t, events) := OnParts(s, parts);
            CallsOf(events, builders) == Numbered(builders, CallsIn(parts), s.counter)
            && t.counter == s.counter + |CallsIn(parts)|
            && AllTokens(events) == TextIn(parts) && NoError(events)
    decreases |parts|
  {
    if parts != [] {
      var (s1, first) := OnPart(s, parts[0]);
      var rest := OnParts(s1, parts[1..]).1;
      assert parts == [parts[0]] + parts[1..];
      PartCalls(s, parts[0], builders);
      PartsCalls(s1, parts[1..], CallsOf(first, builders));
      CallsOfAppend(first, rest, builders);
      R.AllTokensAppend(first, rest);
      CallsInAppend([parts[0]], parts[1..]);
      TextInAppend([parts[0]], parts[1..]);
      NumberedAppend(builders, CallsIn([parts[0]]), CallsIn(parts[1..]), s.counter);
    }
  }

  // What comes after the parts says nothing about calls or text.
  lemma ResponseCalls(s: State, candidate: Option<Candidate>, usage: Option<RawUsage>, builders: Builders)
    ensures var (t, events) := OnResponse(s, candidate, usage);
            var parts := if candidate.Some? then candidate.value.parts else [];
            CallsOf(events, builders) == Numbered(builders, CallsIn(parts), s.counter)
            && t.counter == s.counter + |CallsIn(parts)|
            && AllTokens(events) == TextIn(parts) && NoError(events)
  {
    hide CallsOf, AllTokens, Numbered, CallsIn, TextIn;
    var (t, events) := OnResponse(s, candidate, usage);
    var parts := if candidate.Some? then candidate.value.parts else [];
    var (s1, calls) := OnParts(s, parts);
    PartsCalls(s, parts, builders);
    R.EndsAreEnds(Values(s1.toolCallIds));
    var end := events[|calls|..];
    assert events == calls + end;
    assert forall e | e in end :: e.ToolCallEnd? || e.Done?;
    R.NoTokens(end);
    R.NoCallEvents(end, CallsOf(calls, builders));
    R.AllTokensAppend(calls, end);
    CallsOfAppend(calls, end, builders);
  }

  lemma {:induction false} FramesCalls(decode: Decoder, s: State, frames: seq<Frame>, builders: Builders)
    requires Clean(decode, frames)
    ensures var events, parts := Drive(AsParser(decode), s, frames).1, AllParts(decode, frames);
            CallsOf(events, builders) == Numbered(builders, CallsIn(parts), s.counter)
            && AllTokens(events) == TextIn(parts) && NoError(events)
    decreases |frames|
  {
    hide OnData, PartsOf, Numbered, CallsIn, TextIn, CallsOf, AllTokens;
    if frames == [] {
      NothingCollected(builders, s.counter);
    } else {
      var (t, result) := OnData(decode, s, frames[0].data);
      var first, rest := EventsOf(result), Drive(AsParser(decode), t, frames[1..]).1;
      var parts, later := PartsOf(decode, frames[0]), AllParts(decode, frames[1..]);
      assert frames[0] in frames;
      FrameCalls(decode, s, frames[0], builders);
      FramesCalls(decode, t, frames[1..], CallsOf(first, builders));
      CallsOfAppend(first, rest, builders);
      R.AllTokensAppend(first, rest);
      CallsInAppend(parts, later);
      TextInAppend(parts, later);
      NumberedAppend(builders, CallsIn(parts), CallsIn(later), s.counter);
    }
  }

  lemma FrameCalls(decode: Decoder, s: State, frame: Frame, builders: Builders)
    requires Trim(frame.data) == "[DONE]" || Trim(frame.data) == "" || decode(Trim(frame.data)).Response?
    ensures var (t, result) := OnData(decode, s, frame.data);
            var events, parts := EventsOf(result), PartsOf(decode, frame);
            CallsOf(events, builders) == Numbered(builders, CallsIn(parts), s.counter)
            && t.counter == s.counter + |CallsIn(parts)|
            && AllTokens(events) == TextIn(parts) && NoError(events)
  {
    var payload := decode(Trim(frame.data));
    if Trim(frame.data) != "[DONE]" && Trim(frame.data) != "" {
      ResponseCalls(s, payload.candidate, payload.usage, builders);
    }
  }

  // The collected calls are the given ones, each under its number, and nothing else.
  ghost predicate Collected(calls: seq<FunctionCall>, builders: Builders) {
    && (forall k | 0 <= k < |calls| ::
          IdOf(calls[k], k) in builders && builders[IdOf(calls[k], k)] == BuilderOf(calls[k]))
    && (forall id | id in builders :: exists k | 0 <= k < |calls| :: id == IdOf(calls[k], k))
  }

  lemma NothingCollected(builders: Builders, n: nat)
    ensures CallsOf([], builders) == Numbered(builders, CallsIn([]), n) == builders
    ensures AllTokens([]) == TextIn([]) == ""
    ensures Collected([], map[])
  {
  }

  lemma NumberedSnoc(builders: Builders, before: seq<FunctionCall>, last: FunctionCall, n: nat)
    ensures Numbered(builders, before + [last], n)
         == Numbered(builders, before, n)[IdOf(last, n + |before|) := BuilderOf(last)]
  {
    NumberedAppend(builders, before, [last], n);
    assert [last][1..] == [];
  }

  lemma {:induction false} NumberedIsCollected(calls: seq<FunctionCall>)
    ensures Collected(calls, Numbered(map[], calls, 0))
  {
    hide Collected, IdOf, BuilderOf;
    if calls == [] {
      NothingCollected(map[], 0);
    } else {
      var n := |calls| - 1;
      var before, last := calls[..n], calls[n];
      NumberedIsCollected(before);
      assert calls == before + [last];
      NumberedSnoc(map[], before, last, 0);
      CollectedSnoc(before, last, Numbered(map[], before, 0));
    }
  }

  lemma CollectedSnoc(before: seq<FunctionCall>, last: FunctionCall, builders: Builders)
    requires Collected(before, builders)
    ensures Collected(before + [last], builders[IdOf(last, |before|) := BuilderOf(last)])
  {
    var n, calls, all := |before|, before + [last], builders[IdOf(last, |before|) := BuilderOf(last)];
    forall k | 0 <= k < |calls|
      ensures IdOf(calls[k], k) in all && all[IdOf(calls[k], k)] == BuilderOf(calls[k])
    {
      if k < n {
        assert calls[k] == before[k];
        if IdOf(calls[k], k) == IdOf(last, n) {
          CallIdsDiffer(OrElse(calls[k].name, ""), k, OrElse(last.name, ""), n);
        }
      }
    }
    forall id | id in all
      ensures exists k | 0 <= k < |calls| :: id == IdOf(calls[k], k)
    {
      if id == IdOf(last, n) {
        assert calls[n] == last;
      } else {
        var k :| 0 <= k < n && id == IdOf(before[k], k);
        assert calls[k] == before[k];
      }
    }
  }

  // ---- whole streams ----

  lemma FramesReassemble(decode: Decoder, frames: seq<Frame>)
    requires Clean(decode, frames)
    ensures var r := Collect(Drive(AsParser(decode), FRESH, frames).1, NOTHING);
            var parts := AllParts(decode, frames);
            r.Response? && OrElse(r.content, "") == TextIn(parts)
            && Collected(CallsIn(parts), if r.toolCalls.Some? then r.toolCalls.value else map[])
  {
    FramesCalls(decode, FRESH, frames, map[]);
    ResponseIsComplete(Drive(AsParser(decode), FRESH, frames).1);
    NumberedIsCollected(CallsIn(AllParts(decode, frames)));
  }

  /** End to end: a clean stream of any length, cut into any chunks, is collected to exactly the text
      and the function calls of its parts, each call under an id that carries its number. */
  lemma StreamedCallsReassemble(decode: Decoder, chunks: seq<string>)
    requires NeverOverflows(chunks)
    ensures EachFits(Pieces(Received(chunks))) ==>
              Delivered(chunks) + Flushed(chunks) == Frames(AllEvents(Concat(chunks)))
    ensures var frames := Delivered(chunks) + Flushed(chunks);
            Clean(decode, frames) ==>
              var r := Collect(RunToEnd(AsParser(decode), FRESH, chunks).1, NOTHING);
              var parts := AllParts(decode, frames);
              r.Response? && OrElse(r.content, "") == TextIn(parts)
              && Collected(CallsIn(parts), if r.toolCalls.Some? then r.toolCalls.value else map[])
  {
    var frames := Delivered(chunks) + Flushed(chunks);
    WholeTextArrives(chunks);
    RunToEndIsDrive(AsParser(decode), FRESH, chunks);
    if Clean(decode, frames) {
      FramesReassemble(decode, frames);
    }
  }
}

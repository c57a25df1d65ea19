/** The provider parser for Gemini `streamGenerateContent` streams. Calls arrive whole and
    without ids; the parser makes up ids from a counter and ends all calls at the next chunk
    that carries a finish reason. */
module GeminiParser {
  import opened Text
  import opened StreamEvents
  import opened SseFraming
  import opened SseStream
  import opened IndexMap

  // ---- decoded payloads ----

  // `arguments` is the JSON text of the `args` object, "{}" when there is none.
  datatype FunctionCall = FunctionCall(name: Option<string>, arguments: string)

  datatype Part = Part(thought: bool, text: Option<string>, functionCall: Option<FunctionCall>)

  // The first candidate.
  datatype Candidate = Candidate(parts: seq<Part>, finishReason: Option<string>)

  datatype Payload =
    | ApiError(message: Option<string>)
    | Response(candidate: Option<Candidate>, usage: Option<RawUsage>)
    | Malformed(error: string)

  type Decoder = string -> Payload

  datatype State = State(toolCallIds: Entries, counter: nat)

  const FRESH := State([], 0)

  function CallId(name: string, counter: nat): string {
    "tc_" + name + "_" + ToDecimal(counter)
  }

  // `char::to_uppercase` where the result is all ASCII: the letters, and the few characters
  // beyond ASCII that turn into ASCII letters. Any other character is kept; whatever it turns
  // into is not all ASCII, so it cannot complete one of the reasons below.
  function UpperChar(c: char): string {
    var n := c as int;
    if 'a' <= c <= 'z' then [(n - 32) as char]
    else if n == 0xDF then "SS"
    else if n == 0x131 then "I"
    else if n == 0x17F then "S"
    else if n == 0xFB00 then "FF"
    else if n == 0xFB01 then "FI"
    else if n == 0xFB02 then "FL"
    else if n == 0xFB03 then "FFI"
    else if n == 0xFB04 then "FFL"
    else if n == 0xFB05 || n == 0xFB06 then "ST"
    else [c]
  }

  function Uppercase(s: string): string {
    if s == "" then "" else UpperChar(s[0]) + Uppercase(s[1..])
  }

  function MapFinishReason(reason: string): string {
    var upper := Uppercase(reason);
    if upper == "STOP" then "stop"
    else if upper == "MAX_TOKENS" then "length"
    else if upper == "SAFETY" || upper == "RECITATION" then "content_filter"
    else "unknown"
  }

  // ---- specification ----

  function OnPart(s: State, part: Part): (State, seq<StreamEvent>) {
    if part.thought then (s, if NonEmpty(part.text).Some? then [Reasoning(part.text.value)] else [])
    else
      var text := if NonEmpty(part.text).Some? then [Token(part.text.value)] else [];
      if part.functionCall == None then (s, text)
      else
        var call := part.functionCall.value;
        var name := OrElse(call.name, "");
        var id := CallId(name, s.counter);
        (State(Insert(s.toolCallIds, s.counter, id), s.counter + 1),
         text + [ToolCallStart(id, name), ToolCallDelta(id, call.arguments)])
  }

  function OnParts(s: State, parts: seq<Part>): (State, seq<StreamEvent>)
    decreases |parts|
  {
    if parts == [] then (s, [])
    else
      var (s1, first) := OnPart(s, parts[0]);
      var (s2, rest) := OnParts(s1, parts[1..]);
      (s2, first + rest)
  }

  function UsageOf(usage: Option<RawUsage>): Option<TokenUsage> {
    if usage.Some? then Some(ToUsage(usage.value)) else None
  }

  function OnFinish(s: State, reason: string, usage: Option<RawUsage>): (State, seq<StreamEvent>) {
    var mapped := if s.toolCallIds != [] then "tool_calls" else MapFinishReason(reason);
    (s.(toolCallIds := []), Ends(Values(s.toolCallIds)) + [Done(mapped, UsageOf(usage))])
  }

  function OnResponse(s: State, candidate: Option<Candidate>, usage: Option<RawUsage>): (State, seq<StreamEvent>) {
    var (s1, calls) := if candidate.Some? then OnParts(s, candidate.value.parts) else (s, []);
    if candidate.Some? && candidate.value.finishReason.Some? then
      var (s2, end) := OnFinish(s1, candidate.value.finishReason.value, usage);
      (s2, calls + end)
    else (s1, calls + if usage.Some? then [Done("stop", UsageOf(usage))] else [])
  }

  function OnData(decode: Decoder, s: State, data: string): (State, ParseResult) {
    if Trim(data) == "[DONE]" || Trim(data) == "" then (s, Ok([]))
    else
      match decode(Trim(data))
      case Malformed(error) => (s, Err(error))
      case ApiError(message) => (s, Ok([Error(OrElse(message, "Unknown Gemini streaming error"))]))
      case Response(candidate, usage) =>
        var (t, events) := OnResponse(s, candidate, usage);
        (t, Ok(events))
  }

  function AsParser(decode: Decoder): Parser<State> {
    (s: State, frame: Frame) => OnData(decode, s, frame.data)
  }

  // ---- the parser object ----

  class GeminiSseParser {
    const decode: Decoder
    var toolCallIds: Entries
    var tcCounter: nat

    constructor (decode: Decoder)
      ensures this.decode == decode && Abstract() == FRESH
    {
      this.decode, toolCallIds, tcCounter := decode, [], 0;
    }

    function Abstract(): State
      reads this
    {
      State(toolCallIds, tcCounter)
    }

    method ParseParts(parts: seq<Part>) returns (events: seq<StreamEvent>, hasToolCalls: bool)
      modifies this
      ensures (Abstract(), events) == OnParts(old(Abstract()), parts)
      ensures hasToolCalls ==> toolCallIds != []
      ensures !hasToolCalls ==> toolCallIds == old(toolCallIds)
    {
      events, hasToolCalls := [], false;
      ghost var all := OnParts(Abstract(), parts);
      var i := 0;
      while i < |parts|
        invariant 0 <= i <= |parts|
        invariant OnParts(Abstract(), parts[i..]).0 == all.0
        invariant events + OnParts(Abstract(), parts[i..]).1 == all.1
        invariant hasToolCalls ==> toolCallIds != []
        invariant !hasToolCalls ==> toolCallIds == old(toolCallIds)
      {
        var part := parts[i];
        ghost var (s1, first) := OnPart(Abstract(), part);
        assert parts[i..][1..] == parts[i + 1..];
        AppendAssociates(events, first, OnParts(s1, parts[i + 1..]).1);
        ghost var before := events;
        i := i + 1;
        if part.thought {
          if part.text.Some? && part.text.value != "" {
            events := events + [Reasoning(part.text.value)];
          }
          assert events == before + first;
          continue;
        }
        if part.text.Some? && part.text.value != "" {
          events := events + [Token(part.text.value)];
        }
        if part.functionCall.Some? {
          var name := OrElse(part.functionCall.value.name, "");
          var id := CallId(name, tcCounter);
          toolCallIds := Insert(toolCallIds, tcCounter, id);
          tcCounter := tcCounter + 1;
          events := events + [ToolCallStart(id, name)];
          events := events + [ToolCallDelta(id, part.functionCall.value.arguments)];
          hasToolCalls := true;
        }
        assert events == before + first;
      }
      assert events == all.1;
    }

    method ParseChunk(frame: Frame) returns (r: ParseResult)
      modifies this
      ensures (Abstract(), r) == OnData(decode, old(Abstract()), frame.data)
    {
      var trimmed := Trim(frame.data);
      if trimmed == "[DONE]" || trimmed == "" {
        return Ok([]);
      }
      var root := decode(trimmed);
      if root.Malformed? {
        return Err(root.error);
      }
      if root.ApiError? {
        return Ok([Error(OrElse(root.message, "Unknown Gemini streaming error"))]);
      }
      var events: seq<StreamEvent> := [];
      var doneEmitted := false;
      if root.candidate.Some? {
        var candidate := root.candidate.value;
        var hasToolCalls;
        events, hasToolCalls := ParseParts(candidate.parts);
        if candidate.finishReason.Some? {
          var hadToolCalls := hasToolCalls || toolCallIds != [];
          ghost var s1, calls := Abstract(), events;
          var drained := Values(toolCallIds);
          toolCallIds := [];
          for k := 0 to |drained|
            invariant toolCallIds == [] && tcCounter == s1.counter
            invariant events + Ends(drained[k..]) == calls + Ends(drained)
          {
            assert drained[k..][1..] == drained[k + 1..];
            AppendAssociates(events, [ToolCallEnd(drained[k])], Ends(drained[k + 1..]));
            events := events + [ToolCallEnd(drained[k])];
          }
          assert events == calls + Ends(drained);
          var mapped := if hadToolCalls then "tool_calls" else MapFinishReason(candidate.finishReason.value);
          var done := [Done(mapped, UsageOf(root.usage))];
          AppendAssociates(calls, Ends(drained), done);
          events := events + done;
          doneEmitted := true;
          assert (Abstract(), events) == OnResponse(old(Abstract()), root.candidate, root.usage);
        }
      }
      if !doneEmitted {
        if root.usage.Some? {
          events := events + [Done("stop", Some(ToUsage(root.usage.value)))];
        } else {
          assert events + [] == events;
        }
        assert (Abstract(), events) == OnResponse(old(Abstract()), root.candidate, root.usage);
      }
      return Ok(events);
    }
  }

  // ---- what a run looks like ----

  // The calls waiting for their end, oldest first, and the number of the next call.
  datatype Run = Run(waiting: seq<string>, next: nat)

  // One event of a well-behaved run: calls are numbered without gaps, a fragment belongs to
  // the call just started, and calls end in the order they were started.
  function Advance(r: Run, event: StreamEvent): Option<Run> {
    match event
    case ToolCallStart(id, name) =>
      if id == CallId(name, r.next) then Some(Run(r.waiting + [id], r.next + 1)) else None
    case ToolCallDelta(id, _) =>
      if r.waiting != [] && r.waiting[|r.waiting| - 1] == id then Some(r) else None
    case ToolCallEnd(id) =>
      if r.waiting != [] && r.waiting[0] == id then Some(r.(waiting := r.waiting[1..])) else None
    case _ => Some(r)
  }

  function AdvanceAll(r: Run, events: seq<StreamEvent>): Option<Run>
    decreases |events|
  {
    if events == [] then Some(r)
    else
      var r1 := Advance(r, events[0]);
      if r1 == None then None else AdvanceAll(r1.value, events[1..])
  }

  lemma {:induction false} AdvanceAppend(r: Run, first: seq<StreamEvent>, second: seq<StreamEvent>)
    ensures AdvanceAll(r, first + second)
            == if AdvanceAll(r, first) == None then None else AdvanceAll(AdvanceAll(r, first).value, second)
    decreases |first|
  {
    if first == [] {
      assert first + second == second;
    } else {
      assert (first + second)[1..] == first[1..] + second;
      if Advance(r, first[0]).Some? {
        AdvanceAppend(Advance(r, first[0]).value, first[1..], second);
      }
    }
  }

  // The parser's state as seen from its events. Remembered keys are below the counter.
  ghost predicate Consistent(s: State, r: Run) {
    r == Run(Values(s.toolCallIds), s.counter) && forall e | e in s.toolCallIds :: e.key < s.counter
  }

  lemma {:induction false} InsertNewKey(m: Entries, key: nat, value: string)
    requires forall e | e in m :: e.key < key
    ensures Insert(m, key, value) == m + [Entry(key, value)]
    ensures Values(Insert(m, key, value)) == Values(m) + [value]
  {
    if m != [] {
      InsertNewKey(m[1..], key, value);
      var longer := m + [Entry(key, value)];
      assert longer == [m[0]] + (m[1..] + [Entry(key, value)]);
      assert longer[1..] == m[1..] + [Entry(key, value)];
    }
  }

  // A new call: its start and its arguments.
  lemma CallAdvances(r: Run, name: string, arguments: string)
    ensures var id := CallId(name, r.next);
            AdvanceAll(r, [ToolCallStart(id, name), ToolCallDelta(id, arguments)]) == Some(Run(r.waiting + [id], r.next + 1))
  {
    var id := CallId(name, r.next);
    var start, delta := ToolCallStart(id, name), ToolCallDelta(id, arguments);
    var r1 := Run(r.waiting + [id], r.next + 1);
    assert [start, delta][1..] == [delta] && [delta][1..] == [];
    assert Advance(r, start) == Some(r1) && Advance(r1, delta) == Some(r1);
    assert AdvanceAll(r1, [delta]) == AdvanceAll(r1, []);
  }

  lemma PartAdvances(s: State, part: Part, r: Run)
    requires Consistent(s, r)
    ensures var (t, events) := OnPart(s, part);
            AdvanceAll(r, events).Some? && Consistent(t, AdvanceAll(r, events).value)
  {
    if !part.thought && part.functionCall.Some? {
      var call := part.functionCall.value;
      var name := OrElse(call.name, "");
      var id := CallId(name, s.counter);
      InsertNewKey(s.toolCallIds, s.counter, id);
      var text := if NonEmpty(part.text).Some? then [Token(part.text.value)] else [];
      AdvanceAppend(r, text, [ToolCallStart(id, name), ToolCallDelta(id, call.arguments)]);
      CallAdvances(r, name, call.arguments);
    }
  }

  lemma {:induction false} PartsAdvance(s: State, parts: seq<Part>, r: Run)
    requires Consistent(s, r)
    ensures var (t, events) := OnParts(s, parts);
            AdvanceAll(r, events).Some? && Consistent(t, AdvanceAll(r, events).value)
    decreases |parts|
  {
    if parts != [] {
      PartAdvances(s, parts[0], r);
      var (s1, first) := OnPart(s, parts[0]);
      PartsAdvance(s1, parts[1..], AdvanceAll(r, first).value);
      AdvanceAppend(r, first, OnParts(s1, parts[1..]).1);
    }
  }

  lemma {:induction false} EndsAdvance(r: Run)
    ensures AdvanceAll(r, Ends(r.waiting)) == Some(r.(waiting := []))
    decreases |r.waiting|
  {
    if r.waiting != [] {
      EndsAdvance(r.(waiting := r.waiting[1..]));
      assert Ends(r.waiting)[1..] == Ends(r.waiting[1..]);
    }
  }

  lemma FinishAdvances(s: State, reason: string, usage: Option<RawUsage>, r: Run)
    requires Consistent(s, r)
    ensures var (t, events) := OnFinish(s, reason, usage);
            AdvanceAll(r, events).Some? && Consistent(t, AdvanceAll(r, events).value)
  {
    var ends := Ends(r.waiting);
    var done := OnFinish(s, reason, usage).1[|ends|..];
    assert OnFinish(s, reason, usage).1 == ends + done;
    EndsAdvance(r);
    AdvanceAppend(r, ends, done);
    assert done[1..] == [];
  }

  lemma ResponseAdvances(s: State, candidate: Option<Candidate>, usage: Option<RawUsage>, r: Run)
    requires Consistent(s, r)
    ensures var (t, events) := OnResponse(s, candidate, usage);
            AdvanceAll(r, events).Some? && Consistent(t, AdvanceAll(r, events).value)
  {
    var (s1, calls) := if candidate.Some? then OnParts(s, candidate.value.parts) else (s, []);
    if candidate.Some? {
      PartsAdvance(s, candidate.value.parts, r);
    }
    var r1 := AdvanceAll(r, calls).value;
    if candidate.Some? && candidate.value.finishReason.Some? {
      var reason := candidate.value.finishReason.value;
      FinishAdvances(s1, reason, usage, r1);
      AdvanceAppend(r, calls, OnFinish(s1, reason, usage).1);
    } else {
      var last := if usage.Some? then [Done("stop", UsageOf(usage))] else [];
      assert AdvanceAll(r1, last) == Some(r1) by {
        assert last != [] ==> last[1..] == [];
      }
      AdvanceAppend(r, calls, last);
    }
  }

  lemma {:induction false} FramesAdvance(decode: Decoder, s: State, frames: seq<Frame>, r: Run)
    requires Consistent(s, r)
    ensures var (t, events) := Drive(AsParser(decode), s, frames);
            AdvanceAll(r, events).Some? && Consistent(t, AdvanceAll(r, events).value)
    decreases |frames|
  {
    if frames != [] {
      var (s1, result) := OnData(decode, s, frames[0].data);
      var payload := decode(Trim(frames[0].data));
      if payload.Response? {
        ResponseAdvances(s, payload.candidate, payload.usage, r);
      }
      var first := EventsOf(result);
      assert AdvanceAll(r, first).Some? && Consistent(s1, AdvanceAll(r, first).value);
      FramesAdvance(decode, s1, frames[1..], AdvanceAll(r, first).value);
      AdvanceAppend(r, first, Drive(AsParser(decode), s1, frames[1..]).1);
    }
  }

  // ---- generated ids are distinct ----

  lemma CallIdsDiffer(name1: string, n1: nat, name2: string, n2: nat)
    requires CallId(name1, n1) == CallId(name2, n2)
    ensures n1 == n2
  {
    var d1, d2 := ToDecimal(n1), ToDecimal(n2);
    var p1, p2 := "tc_" + name1, "tc_" + name2;
    LastUnderscore(p1, d1, p2, d2);
    LastUnderscore(p2, d2, p1, d1);
    assert d1 == CallId(name1, n1)[|p1| + 1..] && d2 == CallId(name2, n2)[|p2| + 1..];
    DecimalRoundTrip(n1);
    DecimalRoundTrip(n2);
  }

  // Digits contain no underscore, so the last one is where the number begins.
  lemma LastUnderscore(p1: string, d1: string, p2: string, d2: string)
    requires p1 + "_" + d1 == p2 + "_" + d2
    requires forall c | c in d1 :: IsDigit(c)
    ensures |p2| <= |p1|
  {
    var s := p1 + "_" + d1;
    assert s[|p2|] == '_' by { assert (p2 + "_" + d2)[|p2|] == '_'; }
    forall k | |p1| < k < |s|
      ensures s[k] != '_'
    {
      assert s[k] == d1[k - |p1| - 1];
      assert s[k] in d1;
    }
  }

  // The starts of a run carry the numbers from `r.next` on, each once.
  lemma {:induction false} StartsAreNumbered(r: Run, events: seq<StreamEvent>)
    requires AdvanceAll(r, events).Some?
    ensures FreshStarts(events)
    ensures forall e | e in events && e.ToolCallStart? :: exists n: nat | n >= r.next :: e.id == CallId(e.name, n)
    decreases |events|
  {
    if events != [] {
      var r1, rest := Advance(r, events[0]).value, events[1..];
      StartsAreNumbered(r1, rest);
      assert events == [events[0]] + rest;
      if events[0].ToolCallStart? {
        forall j | 0 < j < |events| && events[j].ToolCallStart?
          ensures events[0].id != events[j].id
        {
          assert events[j] == rest[j - 1] && events[j] in rest;
          var n: nat :| n >= r1.next && events[j].id == CallId(events[j].name, n);
          if events[0].id == events[j].id {
            CallIdsDiffer(events[0].name, r.next, events[j].name, n);
          }
        }
      }
      forall i, j | 0 <= i < j < |events| && events[i].ToolCallStart? && events[j].ToolCallStart?
        ensures events[i].id != events[j].id
      {
        if i > 0 { assert events[i] == rest[i - 1] && events[j] == rest[j - 1]; }
      }
    }
  }

  /** For every sequence of chunks: all generated ids are distinct; calls start, receive their
      arguments at once, and end in the order they were started; what has not ended is what
      the parser remembers, so a chunk with a finish reason leaves nothing open. */
  lemma RunsAreWellBehaved(decode: Decoder, frames: seq<Frame>)
    ensures var (t, events) := Drive(AsParser(decode), FRESH, frames);
            FreshStarts(events)
            && AdvanceAll(Run([], 0), events) == Some(Run(Values(t.toolCallIds), t.counter))
  {
    FramesAdvance(decode, FRESH, frames, Run([], 0));
    StartsAreNumbered(Run([], 0), Drive(AsParser(decode), FRESH, frames).1);
  }

  function Dones(events: seq<StreamEvent>): nat {
    if events == [] then 0 else (if events[0].Done? then 1 else 0) + Dones(events[1..])
  }

  lemma {:induction false} DonesAppend(first: seq<StreamEvent>, second: seq<StreamEvent>)
    ensures Dones(first + second) == Dones(first) + Dones(second)
  {
    if first == [] {
      assert first + second == second;
    } else {
      assert (first + second)[1..] == first[1..] + second;
      DonesAppend(first[1..], second);
    }
  }

  lemma {:induction false} EndsAreNotDone(ids: seq<string>)
    ensures Dones(Ends(ids)) == 0
  {
    if ids != [] {
      EndsAreNotDone(ids[1..]);
      assert Ends(ids)[1..] == Ends(ids[1..]);
    }
  }

  lemma {:induction false} PartsAreNotDone(s: State, parts: seq<Part>)
    ensures Dones(OnParts(s, parts).1) == 0
    decreases |parts|
  {
    if parts != [] {
      var (s1, first) := OnPart(s, parts[0]);
      assert forall e | e in first :: !e.Done?;
      assert |first| <= 3;
      DonesAppend(first, OnParts(s1, parts[1..]).1);
      PartsAreNotDone(s1, parts[1..]);
      NoDones(first);
    }
  }

  lemma {:induction false} NoDones(events: seq<StreamEvent>)
    requires forall e | e in events :: !e.Done?
    ensures Dones(events) == 0
  {
    if events != [] { NoDones(events[1..]); }
  }

  /** A response yields one Done if it carries a finish reason or usage data, and none otherwise;
      with a finish reason every call still waiting is ended. */
  lemma OneDonePerResponse(s: State, candidate: Option<Candidate>, usage: Option<RawUsage>)
    ensures var (t, events) := OnResponse(s, candidate, usage);
            var finished := candidate.Some? && candidate.value.finishReason.Some?;
            Dones(events) == (if finished || usage.Some? then 1 else 0)
            && (finished ==> t.toolCallIds == [])
  {
    var (t, events) := OnResponse(s, candidate, usage);
    var (s1, calls) := if candidate.Some? then OnParts(s, candidate.value.parts) else (s, []);
    if candidate.Some? {
      PartsAreNotDone(s, candidate.value.parts);
    }
    var end := events[|calls|..];
    assert events == calls + end;
    DonesAppend(calls, end);
    EndsAreNotDone(Values(s1.toolCallIds));
    if candidate.Some? && candidate.value.finishReason.Some? {
      var ends := Ends(Values(s1.toolCallIds));
      assert end == ends + end[|ends|..];
      DonesAppend(ends, end[|ends|..]);
    }
  }

  // ---- every call ends at the next finish ----

  predicate Finishes(decode: Decoder, frame: Frame) {
    var payload := decode(Trim(frame.data));
    Trim(frame.data) != "[DONE]" && Trim(frame.data) != "" && payload.Response?
    && payload.candidate.Some? && payload.candidate.value.finishReason.Some?
  }

  // What the frame at a position yields.
  function EventsAt(decode: Decoder, frames: seq<Frame>, i: nat): seq<StreamEvent>
    requires i < |frames|
  {
    EventsOf(OnData(decode, Drive(AsParser(decode), FRESH, frames[..i]).0, frames[i].data).1)
  }

  function EventsUpTo(decode: Decoder, frames: seq<Frame>, k: nat): seq<StreamEvent>
    requires k <= |frames|
  {
    Drive(AsParser(decode), FRESH, frames[..k]).1
  }

  lemma UpToStep(decode: Decoder, frames: seq<Frame>, k: nat)
    requires k < |frames|
    ensures EventsUpTo(decode, frames, k + 1) == EventsUpTo(decode, frames, k) + EventsAt(decode, frames, k)
    ensures Finishes(decode, frames[k]) ==> Drive(AsParser(decode), FRESH, frames[..k + 1]).0.toolCallIds == []
  {
    assert frames[..k + 1] == frames[..k] + [frames[k]];
    DriveSnoc(AsParser(decode), FRESH, frames[..k], frames[k]);
  }

  // How often an id is started and ended.
  function StartsOf(events: seq<StreamEvent>, id: string): nat {
    if events == [] then 0
    else (if events[0].ToolCallStart? && events[0].id == id then 1 else 0) + StartsOf(events[1..], id)
  }

  function EndsOf(events: seq<StreamEvent>, id: string): nat {
    if events == [] then 0
    else (if events[0] == ToolCallEnd(id) then 1 else 0) + EndsOf(events[1..], id)
  }

  lemma {:induction false} CountsAppend(first: seq<StreamEvent>, second: seq<StreamEvent>, id: string)
    ensures StartsOf(first + second, id) == StartsOf(first, id) + StartsOf(second, id)
    ensures EndsOf(first + second, id) == EndsOf(first, id) + EndsOf(second, id)
  {
    if first == [] {
      assert first + second == second;
    } else {
      assert (first + second)[1..] == first[1..] + second;
      CountsAppend(first[1..], second, id);
    }
  }

  lemma {:induction false} StartIsCounted(events: seq<StreamEvent>, id: string, name: string)
    requires ToolCallStart(id, name) in events
    ensures StartsOf(events, id) >= 1
  {
    if events[0] != ToolCallStart(id, name) {
      StartIsCounted(events[1..], id, name);
    }
  }

  lemma {:induction false} NotCounted(events: seq<StreamEvent>, id: string)
    ensures (forall e | e in events && e.ToolCallStart? :: e.id != id) ==> StartsOf(events, id) == 0
    ensures ToolCallEnd(id) !in events ==> EndsOf(events, id) == 0
  {
    if events != [] {
      NotCounted(events[1..], id);
      assert events[0] in events;
    }
  }

  lemma {:induction false} FreshMeansOnce(events: seq<StreamEvent>, id: string)
    requires FreshStarts(events)
    ensures StartsOf(events, id) <= 1
  {
    if events != [] {
      var rest := events[1..];
      assert forall i | 0 <= i < |rest| :: rest[i] == events[i + 1];
      FreshMeansOnce(rest, id);
      if events[0].ToolCallStart? && events[0].id == id {
        NotCounted(rest, id);
      }
    }
  }

  // What is started is ended or waits.
  lemma {:induction false} Balance(r: Run, events: seq<StreamEvent>, id: string)
    requires AdvanceAll(r, events).Some?
    ensures multiset(r.waiting)[id] + StartsOf(events, id)
         == multiset(AdvanceAll(r, events).value.waiting)[id] + EndsOf(events, id)
    decreases |events|
  {
    if events != [] {
      var r1 := Advance(r, events[0]).value;
      Balance(r1, events[1..], id);
      if events[0].ToolCallEnd? {
        assert r.waiting == [r.waiting[0]] + r.waiting[1..];
      }
    }
  }

  lemma BalanceUpTo(decode: Decoder, frames: seq<Frame>, k: nat, id: string)
    requires k <= |frames|
    ensures var waiting := multiset(Values(Drive(AsParser(decode), FRESH, frames[..k]).0.toolCallIds));
            StartsOf(EventsUpTo(decode, frames, k), id) == waiting[id] + EndsOf(EventsUpTo(decode, frames, k), id)
    ensures StartsOf(EventsUpTo(decode, frames, k), id) <= 1
  {
    RunsAreWellBehaved(decode, frames[..k]);
    Balance(Run([], 0), EventsUpTo(decode, frames, k), id);
    FreshMeansOnce(EventsUpTo(decode, frames, k), id);
  }

  lemma CountStep(decode: Decoder, frames: seq<Frame>, k: nat, id: string)
    requires k < |frames|
    ensures EndsOf(EventsUpTo(decode, frames, k + 1), id)
         == EndsOf(EventsUpTo(decode, frames, k), id) + EndsOf(EventsAt(decode, frames, k), id)
    ensures StartsOf(EventsUpTo(decode, frames, k + 1), id)
         == StartsOf(EventsUpTo(decode, frames, k), id) + StartsOf(EventsAt(decode, frames, k), id)
  {
    UpToStep(decode, frames, k);
    CountsAppend(EventsUpTo(decode, frames, k), EventsAt(decode, frames, k), id);
  }

  // Counts only grow, by what the frames in between yield.
  lemma {:induction false} CountsGrow(decode: Decoder, frames: seq<Frame>, a: nat, b: nat, id: string)
    requires a <= b <= |frames|
    ensures EndsOf(EventsUpTo(decode, frames, a), id) <= EndsOf(EventsUpTo(decode, frames, b), id)
    ensures StartsOf(EventsUpTo(decode, frames, a), id) <= StartsOf(EventsUpTo(decode, frames, b), id)
    decreases b - a
  {
    hide EventsUpTo, EventsAt, EndsOf, StartsOf;
    if a < b {
      CountsGrow(decode, frames, a, b - 1, id);
      CountStep(decode, frames, b - 1, id);
    }
  }

  lemma CountsBetween(decode: Decoder, frames: seq<Frame>, a: nat, h: nat, b: nat, id: string)
    requires a <= h < b <= |frames|
    ensures EndsOf(EventsUpTo(decode, frames, a), id) + EndsOf(EventsAt(decode, frames, h), id)
         <= EndsOf(EventsUpTo(decode, frames, b), id)
    ensures StartsOf(EventsUpTo(decode, frames, a), id) + StartsOf(EventsAt(decode, frames, h), id)
         <= StartsOf(EventsUpTo(decode, frames, b), id)
  {
    hide EventsUpTo, EventsAt, EndsOf, StartsOf;
    CountsGrow(decode, frames, a, h, id);
    CountStep(decode, frames, h, id);
    CountsGrow(decode, frames, h + 1, b, id);
  }

  // Without a finish reason nothing ends.
  lemma NoEndWithoutFinish(decode: Decoder, frames: seq<Frame>, h: nat, id: string)
    requires h < |frames| && !Finishes(decode, frames[h])
    ensures EndsOf(EventsAt(decode, frames, h), id) == 0
  {
    var s := Drive(AsParser(decode), FRESH, frames[..h]).0;
    var payload := decode(Trim(frames[h].data));
    if payload.Response? && payload.candidate.Some? {
      PartsHaveNoEnd(s, payload.candidate.value.parts);
    }
    NotCounted(EventsAt(decode, frames, h), id);
  }

  lemma {:induction false} PartsHaveNoEnd(s: State, parts: seq<Part>)
    ensures forall e | e in OnParts(s, parts).1 :: !e.ToolCallEnd?
    decreases |parts|
  {
    if parts != [] {
      PartsHaveNoEnd(OnPart(s, parts[0]).0, parts[1..]);
    }
  }

  // Up to the next finish a call that was started has not ended.
  lemma {:induction false} NoEndBefore(decode: Decoder, frames: seq<Frame>, i: nat, g: nat, id: string)
    requires i <= g <= |frames| && EndsOf(EventsUpTo(decode, frames, i), id) == 0
    requires forall h | i <= h < g :: !Finishes(decode, frames[h])
    ensures EndsOf(EventsUpTo(decode, frames, g), id) == 0
  {
    hide EventsUpTo, EventsAt, EndsOf, Finishes;
    if i < g {
      NoEndBefore(decode, frames, i, g - 1, id);
      CountStep(decode, frames, g - 1, id);
      NoEndWithoutFinish(decode, frames, g - 1, id);
    }
  }

  lemma AtMostOnce(decode: Decoder, frames: seq<Frame>, k: nat, id: string)
    requires k <= |frames|
    ensures EndsOf(EventsUpTo(decode, frames, k), id) <= StartsOf(EventsUpTo(decode, frames, k), id) <= 1
  {
    BalanceUpTo(decode, frames, k, id);
  }

  // After a finish everything started has ended.
  lemma EvenAfterFinish(decode: Decoder, frames: seq<Frame>, g: nat, id: string)
    requires g < |frames| && Finishes(decode, frames[g])
    ensures EndsOf(EventsUpTo(decode, frames, g + 1), id) == StartsOf(EventsUpTo(decode, frames, g + 1), id)
  {
    UpToStep(decode, frames, g);
    BalanceUpTo(decode, frames, g + 1, id);
  }

  /** Whatever the chunks: a call started in chunk `i` is ended once, in the next chunk `g` with a
      finish reason, and in no other chunk of the stream. */
  lemma EndsAtNextFinish(decode: Decoder, frames: seq<Frame>, i: nat, g: nat, id: string, name: string)
    requires i <= g < |frames| && ToolCallStart(id, name) in EventsAt(decode, frames, i)
    requires Finishes(decode, frames[g]) && forall h | i <= h < g :: !Finishes(decode, frames[h])
    ensures EndsOf(EventsAt(decode, frames, g), id) == 1
    ensures forall h | 0 <= h < |frames| && h != g :: EndsOf(EventsAt(decode, frames, h), id) == 0
  {
    hide EventsUpTo, EventsAt, EndsOf, StartsOf, Finishes;
    var n := |frames|;
    StartIsCounted(EventsAt(decode, frames, i), id, name);
    AtMostOnce(decode, frames, n, id);
    CountsBetween(decode, frames, i, i, n, id);
    AtMostOnce(decode, frames, i, id);
    NoEndBefore(decode, frames, i, g, id);
    CountsBetween(decode, frames, i, i, g + 1, id);
    EvenAfterFinish(decode, frames, g, id);
    AtMostOnce(decode, frames, g + 1, id);
    CountStep(decode, frames, g, id);
    forall h | 0 <= h < n && h != g
      ensures EndsOf(EventsAt(decode, frames, h), id) == 0
    {
      if h < g {
        CountsBetween(decode, frames, 0, h, g, id);
      } else {
        CountsBetween(decode, frames, g + 1, h, n, id);
      }
    }
  }
}

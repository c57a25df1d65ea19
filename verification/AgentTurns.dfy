/** What a turn of the agent leaves behind, message by message, told without the specification the
    agent object is proved against: what is injected, what an answer adds, which output answers
    which call, what the observer hears, and how a run is made of its turns. */
module AgentTurns {
  import opened Text
  import opened StreamEvents
  import opened ChatComplete
  import opened Conversation
  import opened AgentState
  import opened AgentLoop

  // ---- single messages ----

  /** The prompt's system text replaces that of the first system message, or becomes one in front. */
  lemma SystemIsSet(s: Snapshot, content: string)
    ensures var t := PushSystem(s, content);
            t.tokenUsage == s.tokenUsage && t.toolNames == s.toolNames
            && ((forall m | m in s.messages :: m.role != System) ==>
                  t.messages == [Message(System, content, None, None, None, None)] + s.messages
                  && t.sources == [SystemInstruction] + s.sources)
            && (forall k | 0 <= k < |s.messages| && s.messages[k].role == System
                           && (forall i | 0 <= i < k :: s.messages[i].role != System) ::
                  t.messages == s.messages[k := s.messages[k].(content := content)] && t.sources == s.sources)
  {
    var k := FirstWithRole(s.messages, System, 0);
    if k < |s.messages| {
      assert s.messages[k] in s.messages;
    }
  }

  /** The user text replaces that of the first user message from `start` on, or is appended. */
  lemma UserIsSet(s: Snapshot, start: nat, content: string)
    ensures var t := UpsertUser(s, start, content);
            t.tokenUsage == s.tokenUsage && t.toolNames == s.toolNames
            && ((forall i | start <= i < |s.messages| :: s.messages[i].role != User) ==>
                  t.messages == s.messages + [Message(User, content, None, None, None, None)]
                  && t.sources == s.sources + [UserInput])
            && (forall k | start <= k < |s.messages| && s.messages[k].role == User
                           && (forall i | start <= i < k :: s.messages[i].role != User) ::
                  t.messages == s.messages[k := s.messages[k].(content := content)] && t.sources == s.sources)
  {
  }

  /** Rendered messages are injected one after the other; only system and user texts are. */
  lemma InjectionIsInOrder(s: Snapshot, start: nat, rendered: seq<Message>, m: Message)
    ensures Inject(s, start, []) == s
    ensures var before := Inject(s, start, rendered);
            Inject(s, start, rendered + [m])
            == if m.role == System then PushSystem(before, m.content)
               else if m.role == User then UpsertUser(before, start, m.content)
               else before
  {
    assert (rendered + [m])[..|rendered|] == rendered;
  }

  // ---- an answer ----

  // Every call built from the events, once, under its id.
  ghost predicate ListsCalls(calls: seq<ToolCall>, built: Builders) {
    && (forall i, j | 0 <= i < j < |calls| :: calls[i].id != calls[j].id)
    && (forall c | c in calls :: c.id in built && c.name == built[c.id].name && c.arguments == built[c.id].arguments)
    && (forall id | id in built :: exists c | c in calls :: c.id == id)
  }

  lemma CallsAreListed(env: Setting, built: Builders)
    requires ListsAll(env.order)
    ensures ListsCalls(CallsIn(env, built), built)
  {
    ListIsComplete(built, env.order(built));
  }

  /** An answer appends one assistant message with all text, all reasoning and all calls of the
      stream, and adds the token totals of every Done. */
  lemma AnswerIsAppended(env: Setting, s: Snapshot, events: seq<StreamEvent>)
    requires ListsAll(env.order)
    ensures var t, built := Answered(env, s, events), CallsOf(events, map[]);
            |t.messages| == |s.messages| + 1 && t.messages[..|s.messages|] == s.messages
            && (var m := t.messages[|s.messages|];
                m.role == Assistant && m.content == AllTokens(events) && m.toolCallId == None && m.name == None
                && m.reasoning == (if AllReasoning(events) == "" then None else Some(AllReasoning(events)))
                && (m.toolCalls == None <==> built == map[])
                && (m.toolCalls.Some? ==> ListsCalls(m.toolCalls.value, built)))
            && t.tokenUsage == s.tokenUsage + AllUsage(events) && t.sources == s.sources + [AssistantOutput]
  {
    CallsAreListed(env, CallsOf(events, map[]));
  }

  // ---- tool results ----

  // A tool result, shortened when it is longer than the limit, between the markers.
  predicate IsResultOf(m: Message, id: string, output: string) {
    m.role == Tool && m.toolCallId == Some(id) && m.toolCalls == None && m.reasoning == None
    && if Utf8Len(output) <= DEFAULT_MAX_RESULT then m.content == OUTPUT_START + output + OUTPUT_END
       else m.content == OUTPUT_START + Utf8Prefix(output, DEFAULT_MAX_RESULT) + "... (truncated to "
                         + ToDecimal(DEFAULT_MAX_RESULT) + " bytes)" + OUTPUT_END
  }

  lemma ResultIsPushed(s: Snapshot, id: string, output: string)
    ensures var t := PushToolResult(s, id, output, None);
            |t.messages| == |s.messages| + 1 && t.messages[..|s.messages|] == s.messages
            && IsResultOf(t.messages[|s.messages|], id, output)
            && t.messages[|s.messages|].name == (if id in s.toolNames then Some(s.toolNames[id]) else None)
            && t.tokenUsage == s.tokenUsage && t.toolNames == s.toolNames && t.sources == s.sources + [ToolOutput]
  {
    hide ToDecimal, Utf8Prefix;
    if Utf8Len(output) > DEFAULT_MAX_RESULT {
      var prefix, size := Utf8Prefix(output, DEFAULT_MAX_RESULT), ToDecimal(DEFAULT_MAX_RESULT);
      assert OUTPUT_START + (prefix + "... (truncated to " + size + " bytes)") + OUTPUT_END
          == OUTPUT_START + prefix + "... (truncated to " + size + " bytes)" + OUTPUT_END;
    }
  }

  // The i-th result answers the i-th call with the i-th output.
  ghost predicate ResultsOf(results: seq<Message>, calls: seq<ToolCall>, output: nat -> string) {
    |results| == |calls| && forall i: nat | i < |calls| :: IsResultOf(results[i], calls[i].id, output(i))
  }

  // The same, as the observer hears it.
  ghost predicate ReportsOf(reports: seq<LoopEvent>, calls: seq<ToolCall>, output: nat -> string) {
    |reports| == |calls| && forall i: nat | i < |calls| :: reports[i] == ToolResult(calls[i], output(i))
  }

  lemma {:induction false} ExecutionPushesResults(s: Snapshot, calls: seq<ToolCall>, output: nat -> string)
    returns (results: seq<Message>)
    ensures Execute(s, calls, output).0.messages == s.messages + results && ResultsOf(results, calls, output)
    ensures ReportsOf(Execute(s, calls, output).1, calls, output)
  {
    hide PushToolResult, IsResultOf;
    results := [];
    if calls != [] {
      var n := |calls| - 1;
      var before := ExecutionPushesResults(s, calls[..n], output);
      var t := Execute(s, calls[..n], output).0;
      ResultIsPushed(t, calls[n].id, output(n));
      var m := PushToolResult(t, calls[n].id, output(n), None).messages[|t.messages|];
      results := before + [m];
      assert PushToolResult(t, calls[n].id, output(n), None).messages == t.messages + [m];
      AppendAssociates(s.messages, before, [m]);
      assert Execute(s, calls, output).1 == Execute(s, calls[..n], output).1 + [ToolResult(calls[n], output(n))];
    }
  }

  // ---- one turn ----

  // The outcome of the attempt that stays.
  function FinalTry(env: Setting, s: Snapshot, start: nat, retries: bool, input: TurnInput): (Snapshot, seq<LoopEvent>)
    requires input.Compiled?
  {
    var prepared := Prepare(env, s, start, input.rendered);
    Try(env, prepared, input.attempts(FinalAttempt(env, prepared, input.attempts, Allowed(retries), 0)))
  }

  /** When the loop goes on, every call that was required, in order, has been answered with its own
      output, and the observer has heard the same; it goes on exactly when calls are required and
      there is an executor. Otherwise what is left is the answer alone. */
  lemma TurnAnswersCalls(env: Setting, s: Snapshot, start: nat, retries: bool, input: TurnInput)
    returns (results: seq<Message>, reports: seq<LoopEvent>)
    requires input.Compiled?
    ensures var (answered, told) := FinalTry(env, s, start, retries, input);
            var (t, events, more) := Turn(env, s, start, retries, input);
            var calls := RequiredCalls(told);
            (more <==> calls != [] && env.executes)
            && (!more ==> t == answered && events == told)
            && (more ==>
                  t.messages == answered.messages + results && ResultsOf(results, calls, input.toolOutput)
                  && events == WithoutDone(told) + reports && ReportsOf(reports, calls, input.toolOutput))
  {
    hide Turn, FinalTry, ResultsOf, ReportsOf, RequiredCalls, WithoutDone, Execute;
    var (answered, told) := FinalTry(env, s, start, retries, input);
    TurnAfterAnswer(env, s, start, retries, input);
    results := ExecutionPushesResults(answered, RequiredCalls(told), input.toolOutput);
    reports := Execute(answered, RequiredCalls(told), input.toolOutput).1;
  }

  lemma TurnAfterAnswer(env: Setting, s: Snapshot, start: nat, retries: bool, input: TurnInput)
    requires input.Compiled?
    ensures var (answered, told) := FinalTry(env, s, start, retries, input);
            var (t, events, more) := Turn(env, s, start, retries, input);
            var calls := RequiredCalls(told);
            (more <==> calls != [] && env.executes)
            && (if more then t == Execute(answered, calls, input.toolOutput).0
                             && events == WithoutDone(told) + Execute(answered, calls, input.toolOutput).1
                else t == answered && events == told)
  {
    hide Prepare, FinalAttempt, Try, RequiredCalls, WithoutDone, Execute;
  }

  /** A prompt that does not compile fails the run and changes nothing. */
  lemma UncompiledTurnFails(env: Setting, s: Snapshot, start: nat, retries: bool, message: string)
    ensures Turn(env, s, start, retries, CompileFails(message)) == (s, [Failed(message, false)], false)
  {
  }

  // The calls of all events that require some, in order.
  lemma RequiredInOrder(first: seq<LoopEvent>, e: LoopEvent)
    ensures RequiredCalls([]) == []
    ensures RequiredCalls(first + [e]) == RequiredCalls(first) + if e.ToolCallRequired? then e.calls else []
  {
    assert (first + [e])[..|first|] == first;
  }

  /** All events but the Dones stay, in order. */
  lemma {:induction false} OnlyDonesAreDropped(events: seq<LoopEvent>)
    ensures Subsequence(WithoutDone(events), events)
    ensures forall e :: multiset(WithoutDone(events))[e] == if e.TurnDone? then 0 else multiset(events)[e]
  {
    if events != [] {
      hide Subsequence;
      var before, last := events[..|events| - 1], events[|events| - 1];
      assert events == before + [last];
      OnlyDonesAreDropped(before);
      SubsequenceSnoc(WithoutDone(before), before, last);
      assert WithoutDone(before) + [] == WithoutDone(before);
    }
  }

  // The attempt fails with an error worth another try.
  ghost predicate WorthRetrying(env: Setting, attempt: Attempt) {
    match attempt
    case NoConnection(_, retryable) => retryable
    case Streamed(events) => exists e | e in events :: e.Error? && env.retryable(e.message)
  }

  lemma BrokenMeans(env: Setting, s: Snapshot, attempt: Attempt)
    ensures Broken(Try(env, s, attempt).1) <==> WorthRetrying(env, attempt)
  {
    match attempt {
      case NoConnection(message, retryable) =>
        assert Failed(message, retryable) in [Failed(message, retryable)];
      case Streamed(events) =>
        BrokenStream(env, map[], events);
    }
  }

  lemma {:induction false} BrokenStream(env: Setting, calls: Builders, events: seq<StreamEvent>)
    ensures Broken(AllTold(env, calls, events)) <==> exists e | e in events :: e.Error? && env.retryable(e.message)
    decreases |events|
  {
    if events != [] {
      var first, rest := Told(env, calls, events[0]), AllTold(env, AddToCalls(calls, events[0]), events[1..]);
      BrokenStream(env, AddToCalls(calls, events[0]), events[1..]);
      assert events == [events[0]] + events[1..];
      BrokenParts(first, rest);
      if events[0].Error? {
        assert first == [Failed(events[0].message, env.retryable(events[0].message))];
        assert first[0] in first;
      }
    }
  }

  lemma BrokenParts(first: seq<LoopEvent>, rest: seq<LoopEvent>)
    ensures Broken(first + rest) <==> Broken(first) || Broken(rest)
  {
    if e :| e in first && e.Failed? && e.retryable { assert e in first + rest; }
    if e :| e in rest && e.Failed? && e.retryable { assert e in first + rest; }
  }

  /** A turn sends the same history again and again until an attempt is not worth retrying, at most
      three times with retries and once without. */
  lemma SendsAtMostThreeTimes(env: Setting, s: Snapshot, start: nat, retries: bool, input: TurnInput)
    ensures var sent, most := SentInTurn(env, s, start, retries, input), if retries then 3 else 1;
            if input.CompileFails? then sent == []
            else
              1 <= |sent| <= most
              && (forall msgs | msgs in sent :: msgs == Prepare(env, s, start, input.rendered).messages)
              && (forall k: nat | k < |sent| - 1 :: WorthRetrying(env, input.attempts(k)))
              && (|sent| < most ==> !WorthRetrying(env, input.attempts(|sent| - 1)))
  {
    hide Prepare, Try, Broken, WorthRetrying;
    if input.Compiled? {
      var prepared := Prepare(env, s, start, input.rendered);
      var n := FinalAttempt(env, prepared, input.attempts, Allowed(retries), 0);
      RepeatedLength(prepared.messages, n + 1);
      Repeated(prepared.messages, n + 1);
      FinalAttemptIs(env, prepared, input.attempts, Allowed(retries), 0);
      forall k: nat | k <= n
        ensures Broken(Try(env, prepared, input.attempts(k)).1) <==> WorthRetrying(env, input.attempts(k))
      {
        BrokenMeans(env, prepared, input.attempts(k));
      }
    }
  }

  /** A Done with calls built so far first requires all of them, once, and then is told. */
  lemma DoneRequiresCalls(env: Setting, calls: Builders, reason: string, usage: Option<TokenUsage>)
    requires ListsAll(env.order)
    ensures calls == map[] ==> Told(env, calls, Done(reason, usage)) == [TurnDone(usage)]
    ensures calls != map[] ==>
              var told := Told(env, calls, Done(reason, usage));
              |told| == 2 && told[0].ToolCallRequired? && ListsCalls(told[0].calls, calls) && told[1] == TurnDone(usage)
  {
    CallsAreListed(env, calls);
  }

  lemma {:induction false} RepeatedLength<T>(x: T, n: nat)
    ensures |Repeat(x, n)| == n
  {
    if n > 0 {
      RepeatedLength(x, n - 1);
    }
  }

  // ---- what the observer hears ----

  // What one event of the stream is to the observer, but for the calls a Done requires.
  function Heard(env: Setting, event: StreamEvent): seq<LoopEvent> {
    if event.Token? then [TokenSeen(event.content)]
    else if event.Reasoning? then [ReasoningSeen(event.thought)]
    else if event.Done? then [TurnDone(event.usage)]
    else if event.Error? then [Failed(event.message, env.retryable(event.message))]
    else []
  }

  function AllHeard(env: Setting, events: seq<StreamEvent>): seq<LoopEvent> {
    if events == [] then [] else AllHeard(env, events[..|events| - 1]) + Heard(env, events[|events| - 1])
  }

  function WithoutRequired(events: seq<LoopEvent>): seq<LoopEvent> {
    if events == [] then []
    else WithoutRequired(events[..|events| - 1])
         + var last := events[|events| - 1]; if last.ToolCallRequired? then [] else [last]
  }

  lemma {:induction false} WithoutRequiredAppend(a: seq<LoopEvent>, b: seq<LoopEvent>)
    ensures WithoutRequired(a + b) == WithoutRequired(a) + WithoutRequired(b)
    decreases |b|
  {
    if b == [] {
      assert a + b == a;
    } else {
      var n := |b| - 1;
      assert (a + b)[..|a| + n] == a + b[..n];
      WithoutRequiredAppend(a, b[..n]);
    }
  }

  lemma {:induction false} AllHeardAppend(env: Setting, a: seq<StreamEvent>, b: seq<StreamEvent>)
    ensures AllHeard(env, a + b) == AllHeard(env, a) + AllHeard(env, b)
    decreases |b|
  {
    hide Heard;
    if b == [] {
      assert a + b == a;
    } else {
      var n := |b| - 1;
      assert (a + b)[..|a| + n] == a + b[..n];
      AllHeardAppend(env, a, b[..n]);
      AppendAssociates(AllHeard(env, a), AllHeard(env, b[..n]), Heard(env, b[n]));
    }
  }

  /** Besides the calls that are required, the observer hears every token, every reasoning, every
      Done with its usage and every error of the stream, in order. */
  lemma {:induction false} ObserverHearsTheStream(env: Setting, calls: Builders, events: seq<StreamEvent>)
    ensures WithoutRequired(AllTold(env, calls, events)) == AllHeard(env, events)
    decreases |events|
  {
    if events != [] {
      var e, rest := events[0], events[1..];
      var first := Told(env, calls, e);
      ObserverHearsTheStream(env, AddToCalls(calls, e), rest);
      WithoutRequiredAppend(first, AllTold(env, AddToCalls(calls, e), rest));
      ToldIsHeard(env, calls, e);
      assert events == [e] + rest;
      AllHeardAppend(env, [e], rest);
      assert [e][..0] == [] && AllHeard(env, [e]) == [] + Heard(env, e);
    }
  }

  lemma ToldIsHeard(env: Setting, calls: Builders, e: StreamEvent)
    ensures WithoutRequired(Told(env, calls, e)) == Heard(env, e)
  {
    hide WithoutRequired, CallsIn;
    var told := Told(env, calls, e);
    if told == [] {
      NoneIsRequired();
    } else if |told| == 1 {
      assert told == [told[0]];
      OneIsRequired(told[0]);
    } else if |told| == 2 {
      assert told == [told[0]] + [told[1]];
      OneIsRequired(told[0]);
      OneIsRequired(told[1]);
      WithoutRequiredAppend([told[0]], [told[1]]);
    }
  }

  lemma NoneIsRequired()
    ensures WithoutRequired([]) == []
  {
  }

  lemma OneIsRequired(e: LoopEvent)
    ensures WithoutRequired([e]) == if e.ToolCallRequired? then [] else [e]
  {
    assert [e][..0] == [];
  }

  // ---- a run and its turns ----

  // The states before the turns of a run, and the one after the last.
  ghost predicate RunsThrough(env: Setting, start: nat, retries: bool, world: nat -> TurnInput, turn: nat,
                              states: seq<Snapshot>) {
    forall i | 0 <= i < |states| - 1 :: Turn(env, states[i], start, retries, world(turn + i)).0 == states[i + 1]
  }

  // All turns but the last one go on.
  ghost predicate GoOn(env: Setting, start: nat, retries: bool, world: nat -> TurnInput, turn: nat,
                       states: seq<Snapshot>) {
    forall i | 0 <= i < |states| - 2 :: Turn(env, states[i], start, retries, world(turn + i)).2
  }

  // What the turns report, in order.
  function Reports(env: Setting, start: nat, retries: bool, world: nat -> TurnInput, turn: nat, states: seq<Snapshot>)
    : seq<LoopEvent>
    decreases |states|
  {
    if |states| <= 1 then []
    else Turn(env, states[0], start, retries, world(turn)).1 + Reports(env, start, retries, world, turn + 1, states[1..])
  }

  /** A run is its turns: each starts from what the one before left, all but the last go on, and the
      last one does only if no turn is left. */
  lemma {:induction false} RunIsItsTurns(env: Setting, s: Snapshot, start: nat, retries: bool, world: nat -> TurnInput,
                                         turn: nat, maxTurns: nat) returns (states: seq<Snapshot>)
    requires turn <= maxTurns
    ensures var (t, events) := Turns(env, s, start, retries, world, turn, maxTurns);
            states != [] && |states| - 1 <= maxTurns - turn && (turn < maxTurns ==> |states| > 1)
            && states[0] == s && states[|states| - 1] == t
            && RunsThrough(env, start, retries, world, turn, states)
            && events == Reports(env, start, retries, world, turn, states)
            && GoOn(env, start, retries, world, turn, states)
            && (|states| > 1 && Turn(env, states[|states| - 2], start, retries, world(turn + |states| - 2)).2 ==>
                  |states| - 1 == maxTurns - turn)
    decreases maxTurns - turn
  {
    hide Turn, RunsThrough, Reports, GoOn;
    if turn == maxTurns {
      states := [s];
      OneState(env, s, start, retries, world, turn);
    } else {
      var (t, events, more) := Turn(env, s, start, retries, world(turn));
      var rest := [t];
      if more {
        rest := RunIsItsTurns(env, t, start, retries, world, turn + 1, maxTurns);
      } else {
        OneState(env, t, start, retries, world, turn + 1);
        assert events + [] == events;
      }
      states := [s] + rest;
      OneMoreTurn(env, s, start, retries, world, turn, rest);
      assert |states| > 2 ==> states[|states| - 2] == rest[|rest| - 2] && turn + |states| - 2 == turn + 1 + |rest| - 2;
    }
  }

  lemma OneState(env: Setting, s: Snapshot, start: nat, retries: bool, world: nat -> TurnInput, turn: nat)
    ensures RunsThrough(env, start, retries, world, turn, [s]) && GoOn(env, start, retries, world, turn, [s])
    ensures Reports(env, start, retries, world, turn, [s]) == []
  {
  }

  // A turn in front of others.
  lemma OneMoreTurn(env: Setting, s: Snapshot, start: nat, retries: bool, world: nat -> TurnInput, turn: nat,
                    rest: seq<Snapshot>)
    requires rest != [] && RunsThrough(env, start, retries, world, turn + 1, rest)
    requires GoOn(env, start, retries, world, turn + 1, rest)
    requires Turn(env, s, start, retries, world(turn)).0 == rest[0]
    requires |rest| > 1 ==> Turn(env, s, start, retries, world(turn)).2
    ensures RunsThrough(env, start, retries, world, turn, [s] + rest) && GoOn(env, start, retries, world, turn, [s] + rest)
    ensures Reports(env, start, retries, world, turn, [s] + rest)
         == Turn(env, s, start, retries, world(turn)).1 + Reports(env, start, retries, world, turn + 1, rest)
  {
    hide Turn;
    var states := [s] + rest;
    assert states[1..] == rest;
    forall i | 0 <= i < |states| - 1
      ensures Turn(env, states[i], start, retries, world(turn + i)).0 == states[i + 1]
      ensures i < |states| - 2 ==> Turn(env, states[i], start, retries, world(turn + i)).2
    {
      if i > 0 {
        assert states[i] == rest[i - 1] && turn + i == turn + 1 + (i - 1);
      }
    }
  }

  // ---- usage ----

  // The total of one event, if it tells any.
  function TotalOf(event: StreamEvent): nat {
    match event
    case Done(_, Some(usage)) => usage.totalTokens
    case _ => 0
  }

  /** The usage grows by the total of each Done that tells one, wherever in the stream. */
  lemma {:induction false} UsageIsSummed(first: seq<StreamEvent>, event: StreamEvent, rest: seq<StreamEvent>)
    ensures AllUsage([]) == 0
    ensures AllUsage(first + [event] + rest) == AllUsage(first + rest) + TotalOf(event)
  {
    if first == [] {
      assert [] + [event] + rest == [event] + rest && [] + rest == rest;
      assert ([event] + rest)[1..] == rest;
    } else {
      assert (first + [event] + rest)[1..] == first[1..] + [event] + rest;
      assert (first + rest)[1..] == first[1..] + rest;
      UsageIsSummed(first[1..], event, rest);
    }
  }
}

/** The agent's turn loop: compile the prompt, trim the history, stream a response, retry
    streams that broke, execute the tools that were asked for, and start over. */
module AgentLoop {
  import opened Text
  import opened StreamEvents
  import opened ChatComplete
  import opened Conversation
  import opened AgentState
  import AnthropicTransport

  const MAX_STREAM_RETRIES: nat := 2

  datatype LoopEvent =
    | TokenSeen(text: string)
    | ReasoningSeen(text: string)
    | ToolCallRequired(calls: seq<ToolCall>)
    | ToolResult(call: ToolCall, result: string)
    | TurnDone(usage: Option<TokenUsage>)
    | Failed(message: string, retryable: bool)

  // One try at streaming a response. Any events can arrive.
  datatype Attempt = NoConnection(message: string, retryable: bool) | Streamed(events: seq<StreamEvent>)

  // What the agent depends on: how messages of broken streams are classified, the order in
  // which a hash map of calls happens to be listed, the token estimate and budget, and whether
  // there is a tool executor.
  datatype Setting = Setting(
    retryable: string -> bool, order: Builders -> seq<string>, estimate: Estimator, budget: nat, executes: bool)

  // ---- specification: one attempt ----

  function ListCalls(b: Builders, ids: seq<string>): seq<ToolCall> {
    if ids == [] then []
    else
      ListCalls(b, ids[..|ids| - 1])
      + var id := ids[|ids| - 1]; if id in b then [ToolCall(id, b[id].name, b[id].arguments)] else []
  }

  // Listing a hash map visits every key once.
  ghost predicate ListsAll(order: Builders -> seq<string>) {
    forall b :: (forall id :: id in order(b) <==> id in b)
                && Distinct(order(b))
  }

  function CallsIn(env: Setting, b: Builders): seq<ToolCall> {
    ListCalls(b, env.order(b))
  }

  function TokensReported(event: StreamEvent): nat {
    if event.Done? && event.usage.Some? then event.usage.value.totalTokens else 0
  }

  function AllUsage(events: seq<StreamEvent>): nat {
    if events == [] then 0 else TokensReported(events[0]) + AllUsage(events[1..])
  }

  // What the observer is told about one event, with the calls built so far.
  function Told(env: Setting, calls: Builders, event: StreamEvent): seq<LoopEvent> {
    match event
    case Token(text) => [TokenSeen(text)]
    case Reasoning(text) => [ReasoningSeen(text)]
    case Done(_, usage) =>
      (if calls != map[] then [ToolCallRequired(CallsIn(env, calls))] else []) + [TurnDone(usage)]
    case Error(message) => [Failed(message, env.retryable(message))]
    case _ => []
  }

  function AllTold(env: Setting, calls: Builders, events: seq<StreamEvent>): seq<LoopEvent>
    decreases |events|
  {
    if events == [] then []
    else Told(env, calls, events[0]) + AllTold(env, AddToCalls(calls, events[0]), events[1..])
  }

  function Answered(env: Setting, s: Snapshot, events: seq<StreamEvent>): Snapshot {
    var built := CallsOf(events, map[]);
    PushAssistant(s.(tokenUsage := s.tokenUsage + AllUsage(events)), AllTokens(events), AllReasoning(events),
                  if built == map[] then None else Some(CallsIn(env, built)))
  }

  function Try(env: Setting, s: Snapshot, attempt: Attempt): (Snapshot, seq<LoopEvent>) {
    match attempt
    case NoConnection(message, retryable) => (s, [Failed(message, retryable)])
    case Streamed(events) => (Answered(env, s, events), AllTold(env, map[], events))
  }

  // ---- specification: retries ----

  predicate Broken(events: seq<LoopEvent>) {
    exists e | e in events :: e.Failed? && e.retryable
  }

  // The attempt whose outcome stays: the first that is not broken, or the last one allowed.
  function FinalAttempt(env: Setting, s: Snapshot, attempts: nat -> Attempt, allowed: nat, k: nat): (n: nat)
    requires k <= allowed
    ensures k <= n <= allowed
    decreases allowed - k
  {
    if k == allowed || !Broken(Try(env, s, attempts(k)).1) then k
    else FinalAttempt(env, s, attempts, allowed, k + 1)
  }

  /** Every attempt before the final one was broken, and only the last one allowed may be. */
  lemma {:induction false} FinalAttemptIs(env: Setting, s: Snapshot, attempts: nat -> Attempt, allowed: nat, k: nat)
    requires k <= allowed
    ensures var n := FinalAttempt(env, s, attempts, allowed, k);
            (forall j: nat | k <= j < n :: Broken(Try(env, s, attempts(j)).1))
            && (n < allowed ==> !Broken(Try(env, s, attempts(n)).1))
    decreases allowed - k
  {
    if k < allowed && Broken(Try(env, s, attempts(k)).1) {
      FinalAttemptIs(env, s, attempts, allowed, k + 1);
    }
  }

  // ---- specification: one turn and the whole loop ----

  datatype TurnInput =
    | CompileFails(message: string)
    | Compiled(rendered: seq<Message>, attempts: nat -> Attempt, toolOutput: nat -> string)

  function Inject(s: Snapshot, start: nat, rendered: seq<Message>): Snapshot {
    if rendered == [] then s
    else
      var before := Inject(s, start, rendered[..|rendered| - 1]);
      var m := rendered[|rendered| - 1];
      match m.role
      case System => PushSystem(before, m.content)
      case User => UpsertUser(before, start, m.content)
      case _ => before
  }

  function RequiredCalls(events: seq<LoopEvent>): seq<ToolCall> {
    if events == [] then []
    else RequiredCalls(events[..|events| - 1])
         + var last := events[|events| - 1]; if last.ToolCallRequired? then last.calls else []
  }

  function WithoutDone(events: seq<LoopEvent>): seq<LoopEvent> {
    if events == [] then []
    else WithoutDone(events[..|events| - 1])
         + var last := events[|events| - 1]; if last.TurnDone? then [] else [last]
  }

  // The results of the calls, pushed in order.
  function Execute(s: Snapshot, calls: seq<ToolCall>, output: nat -> string): (Snapshot, seq<LoopEvent>) {
    if calls == [] then (s, [])
    else
      var n := |calls| - 1;
      var (before, events) := Execute(s, calls[..n], output);
      (PushToolResult(before, calls[n].id, output(n), None), events + [ToolResult(calls[n], output(n))])
  }

  function Prepare(env: Setting, s: Snapshot, start: nat, rendered: seq<Message>): Snapshot {
    TrimTo(env.estimate, Inject(s, start, rendered), env.budget)
  }

  // How many retries there may be.
  function Allowed(retries: bool): nat {
    if retries then MAX_STREAM_RETRIES else 0
  }

  // One turn: the state it leaves, its events, and whether the loop goes on.
  function Turn(env: Setting, s: Snapshot, start: nat, retries: bool, input: TurnInput)
    : (Snapshot, seq<LoopEvent>, bool)
  {
    match input
    case CompileFails(message) => (s, [Failed(message, false)], false)
    case Compiled(rendered, attempts, output) =>
      var prepared := Prepare(env, s, start, rendered);
      var k := FinalAttempt(env, prepared, attempts, Allowed(retries), 0);
      var (answered, events) := Try(env, prepared, attempts(k));
      var calls := RequiredCalls(events);
      if calls == [] || !env.executes then (answered, events, false)
      else
        var (done, results) := Execute(answered, calls, output);
        (done, WithoutDone(events) + results, true)
  }

  function Turns(env: Setting, s: Snapshot, start: nat, retries: bool, world: nat -> TurnInput, turn: nat,
                 maxTurns: nat)
    : (Snapshot, seq<LoopEvent>)
    requires turn <= maxTurns
    decreases maxTurns - turn
  {
    if turn == maxTurns then (s, [])
    else
      var (t, events, more) := Turn(env, s, start, retries, world(turn));
      if !more then (t, events)
      else
        var (u, rest) := Turns(env, t, start, retries, world, turn + 1, maxTurns);
        (u, events + rest)
  }

  // ---- specification: what the provider is sent ----

  function Repeat<T>(x: T, n: nat): seq<T> {
    if n == 0 then [] else Repeat(x, n - 1) + [x]
  }

  // Every attempt of a turn sends the same history, the prepared one.
  function SentInTurn(env: Setting, s: Snapshot, start: nat, retries: bool, input: TurnInput): seq<seq<Message>> {
    match input
    case CompileFails(_) => []
    case Compiled(rendered, attempts, _) =>
      var prepared := Prepare(env, s, start, rendered);
      Repeat(prepared.messages, FinalAttempt(env, prepared, attempts, Allowed(retries), 0) + 1)
  }

  function SentInTurns(env: Setting, s: Snapshot, start: nat, retries: bool, world: nat -> TurnInput,
                       turn: nat, maxTurns: nat): seq<seq<Message>>
    requires turn <= maxTurns
    decreases maxTurns - turn
  {
    if turn == maxTurns then []
    else
      var (t, _, more) := Turn(env, s, start, retries, world(turn));
      SentInTurn(env, s, start, retries, world(turn))
      + if more then SentInTurns(env, t, start, retries, world, turn + 1, maxTurns) else []
  }

  // ---- the agent object ----

  class Agent {
    const state: AgentState
    const setting: Setting
    // The histories the provider has been sent, oldest first.
    ghost var sent: seq<seq<Message>>

    constructor (state: AgentState, setting: Setting)
      requires state.estimate == setting.estimate
      ensures Valid() && this.state == state && this.setting == setting && sent == []
    {
      this.state, this.setting, sent := state, setting, [];
    }

    ghost predicate Valid() {
      state.estimate == setting.estimate
    }

    // One event of the stream: the buffers and builders after it, and what the observer is told.
    method HandleEvent(event: StreamEvent, contentBuf: string, reasoningBuf: string, toolBuilders: Builders)
      returns (content: string, reasoning: string, builders: Builders, told: seq<LoopEvent>)
      modifies state
      ensures content == contentBuf + (if event.Token? then event.content else "")
      ensures reasoning == reasoningBuf + (if event.Reasoning? then event.thought else "")
      ensures builders == AddToCalls(toolBuilders, event) && told == Told(setting, toolBuilders, event)
      ensures state.State() == old(state.State()).(tokenUsage := old(state.tokenUsage) + TokensReported(event))
    {
      content, reasoning, builders, told := contentBuf, reasoningBuf, toolBuilders, [];
      match event {
        case Token(text) =>
          content := content + text;
          told := [TokenSeen(text)];
        case Reasoning(text) =>
          reasoning := reasoning + text;
          told := [ReasoningSeen(text)];
        case ToolCallStart(id, name) =>
          builders := builders[id := ToolCallBuilder(name, "")];
        case ToolCallDelta(id, fragment) =>
          if id in builders {
            builders := builders[id := ToolCallBuilder(builders[id].name, builders[id].arguments + fragment)];
          }
        case ToolCallEnd(_) =>
        case Done(_, usage) =>
          if usage.Some? {
            state.AddTokenUsage(usage.value.totalTokens);
          }
          if builders != map[] {
            told := [ToolCallRequired(CallsIn(setting, builders))];
          }
          told := told + [TurnDone(usage)];
        case Error(message) =>
          told := [Failed(message, setting.retryable(message))];
      }
    }

    method RunChat(attempt: Attempt) returns (events: seq<LoopEvent>)
      modifies state, this
      ensures (state.State(), events) == Try(setting, old(state.State()), attempt)
      ensures sent == old(sent) + [old(state.messages)]
    {
      sent := sent + [state.messages];
      if attempt.NoConnection? {
        return [Failed(attempt.message, attempt.retryable)];
      }
      events := [];
      var contentBuf, reasoningBuf, toolBuilders: Builders := "", "", map[];
      var stream := attempt.events;
      var i := 0;
      while i < |stream|
        invariant 0 <= i <= |stream|
        invariant contentBuf + AllTokens(stream[i..]) == AllTokens(stream)
        invariant reasoningBuf + AllReasoning(stream[i..]) == AllReasoning(stream)
        invariant CallsOf(stream[i..], toolBuilders) == CallsOf(stream, map[])
        invariant events + AllTold(setting, toolBuilders, stream[i..]) == AllTold(setting, map[], stream)
        invariant state.tokenUsage + AllUsage(stream[i..]) == old(state.tokenUsage) + AllUsage(stream)
        invariant state.State() == old(state.State()).(tokenUsage := state.tokenUsage)
        invariant sent == old(sent) + [old(state.messages)]
      {
        var event := stream[i];
        assert stream[i..][1..] == stream[i + 1..];
        AppendAssociates(contentBuf, if event.Token? then event.content else "", AllTokens(stream[i + 1..]));
        AppendAssociates(reasoningBuf, if event.Reasoning? then event.thought else "", AllReasoning(stream[i + 1..]));
        AppendAssociates(events, Told(setting, toolBuilders, event),
                AllTold(setting, AddToCalls(toolBuilders, event), stream[i + 1..]));
        var told;
        contentBuf, reasoningBuf, toolBuilders, told := HandleEvent(event, contentBuf, reasoningBuf, toolBuilders);
        events := events + told;
        i := i + 1;
      }
      assert contentBuf == AllTokens(stream) && reasoningBuf == AllReasoning(stream);
      assert events == AllTold(setting, map[], stream);
      var toolCalls := if toolBuilders == map[] then None else Some(CallsIn(setting, toolBuilders));
      state.PushAssistantMessage(contentBuf, reasoningBuf, toolCalls);
    }

    /** Streams a response and retries broken streams from a snapshot. What is left is exactly
        what the last attempt alone would have left, token usage included. */
    method RunChatWithRetries(attempts: nat -> Attempt, retryStreamErrors: bool) returns (events: seq<LoopEvent>)
      modifies state, this
      ensures var s := old(state.State());
              var k := FinalAttempt(setting, s, attempts, Allowed(retryStreamErrors), 0);
              (state.State(), events) == Try(setting, s, attempts(k)) && sent == old(sent) + Repeat(s.messages, k + 1)
    {
      var snapshot := state.TakeSnapshot();
      events := RunChat(attempts(0));
      var retryCount := 0;
      ghost var allowed := Allowed(retryStreamErrors);
      assert Repeat(snapshot.messages, 1) == [snapshot.messages];
      while retryStreamErrors && retryCount < MAX_STREAM_RETRIES
        invariant 0 <= retryCount <= allowed
        invariant (state.State(), events) == Try(setting, snapshot, attempts(retryCount))
        invariant sent == old(sent) + Repeat(snapshot.messages, retryCount + 1)
        invariant FinalAttempt(setting, snapshot, attempts, allowed, 0)
               == FinalAttempt(setting, snapshot, attempts, allowed, retryCount)
      {
        if !Broken(events) {
          break;
        }
        state.Restore(snapshot);
        retryCount := retryCount + 1;
        events := RunChat(attempts(retryCount));
        AppendAssociates(old(sent), Repeat(snapshot.messages, retryCount), [snapshot.messages]);
      }
    }

    method InjectPrompt(start: nat, rendered: seq<Message>)
      modifies state
      ensures state.State() == Inject(old(state.State()), start, rendered)
    {
      for i := 0 to |rendered|
        invariant state.State() == Inject(old(state.State()), start, rendered[..i])
      {
        assert rendered[..i + 1][..i] == rendered[..i];
        match rendered[i].role {
          case System => state.PushSystemMessage(rendered[i].content);
          case User => state.UpsertUserMessageFrom(start, rendered[i].content);
          case _ =>
        }
      }
      assert rendered[..|rendered|] == rendered;
    }

    method ExecuteCalls(calls: seq<ToolCall>, output: nat -> string) returns (events: seq<LoopEvent>)
      modifies state
      ensures (state.State(), events) == Execute(old(state.State()), calls, output)
    {
      events := [];
      for i := 0 to |calls|
        invariant (state.State(), events) == Execute(old(state.State()), calls[..i], output)
      {
        assert calls[..i + 1][..i] == calls[..i];
        var result := output(i);
        events := events + [ToolResult(calls[i], result)];
        state.PushToolResultMessage(calls[i].id, result, None);
      }
      assert calls[..|calls|] == calls;
    }

    method RunTurn(start: nat, retryStreamErrors: bool, input: TurnInput) returns (events: seq<LoopEvent>, more: bool)
      requires Valid()
      modifies state, this
      ensures (state.State(), events, more) == Turn(setting, old(state.State()), start, retryStreamErrors, input)
      ensures sent == old(sent) + SentInTurn(setting, old(state.State()), start, retryStreamErrors, input)
    {
      hide Inject, TrimTo, FinalAttempt, Try, RequiredCalls, WithoutDone, Execute, Repeat;
      if input.CompileFails? {
        assert sent + [] == sent;
        return [Failed(input.message, false)], false;
      }
      InjectPrompt(start, input.rendered);
      state.TrimMessages(setting.budget);
      events := RunChatWithRetries(input.attempts, retryStreamErrors);
      var toolCalls := RequiredCalls(events);
      if toolCalls == [] || !setting.executes {
        return events, false;
      }
      events := WithoutDone(events);
      var results := ExecuteCalls(toolCalls, input.toolOutput);
      return events + results, true;
    }

    /** `run` (with retries) and `run_streaming` (without). */
    method Run(maxTurns: nat, retryStreamErrors: bool, world: nat -> TurnInput) returns (allEvents: seq<LoopEvent>)
      requires Valid()
      modifies state, this
      ensures var s := old(state.State());
              (state.State(), allEvents) == Turns(setting, s, |s.messages|, retryStreamErrors, world, 0, maxTurns)
              && sent == old(sent) + SentInTurns(setting, s, |s.messages|, retryStreamErrors, world, 0, maxTurns)
    {
      hide Turn, SentInTurn;
      allEvents := [];
      var start: nat := |state.messages|;
      ghost var whole := Turns(setting, state.State(), start, retryStreamErrors, world, 0, maxTurns);
      ghost var allSent := sent + SentInTurns(setting, state.State(), start, retryStreamErrors, world, 0, maxTurns);
      var turn: nat := 0;
      while turn < maxTurns
        invariant turn <= maxTurns
        invariant var rest := Turns(setting, state.State(), start, retryStreamErrors, world, turn, maxTurns);
                  whole.0 == rest.0 && whole.1 == allEvents + rest.1
        invariant allSent == sent + SentInTurns(setting, state.State(), start, retryStreamErrors, world, turn, maxTurns)
      {
        ghost var before, sentBefore := state.State(), sent;
        var events, more := RunTurn(start, retryStreamErrors, world(turn));
        TurnsStep(setting, before, start, retryStreamErrors, world, turn, maxTurns, allEvents, state.State(), events, more);
        SentStep(setting, before, start, retryStreamErrors, world, turn, maxTurns, sentBefore);
        allEvents := allEvents + events;
        if !more {
          return;
        }
        turn := turn + 1;
      }
      assert allEvents + [] == allEvents && sent + [] == sent;
    }
  }

  // The first of the remaining turns, given what it does, and the rest after it.
  lemma TurnsStep(env: Setting, s: Snapshot, start: nat, retries: bool, world: nat -> TurnInput, turn: nat,
                  maxTurns: nat,
                  earlier: seq<LoopEvent>, t: Snapshot, events: seq<LoopEvent>, more: bool)
    requires turn < maxTurns && Turn(env, s, start, retries, world(turn)) == (t, events, more)
    ensures var all := Turns(env, s, start, retries, world, turn, maxTurns);
            if more then
              var rest := Turns(env, t, start, retries, world, turn + 1, maxTurns);
              all.0 == rest.0 && earlier + all.1 == earlier + events + rest.1
            else all.0 == t && earlier + all.1 == earlier + events
  {
    if more {
      AppendAssociates(earlier, events, Turns(env, t, start, retries, world, turn + 1, maxTurns).1);
    }
  }

  // What is sent in the first of the remaining turns, and in the rest after it.
  lemma SentStep(env: Setting, s: Snapshot, start: nat, retries: bool, world: nat -> TurnInput, turn: nat,
                 maxTurns: nat,
                 earlier: seq<seq<Message>>)
    requires turn < maxTurns
    ensures var (t, _, more) := Turn(env, s, start, retries, world(turn));
            var now := earlier + SentInTurn(env, s, start, retries, world(turn));
            earlier + SentInTurns(env, s, start, retries, world, turn, maxTurns)
            == if more then now + SentInTurns(env, t, start, retries, world, turn + 1, maxTurns) else now
  {
    hide SentInTurn;
    var (t, _, more) := Turn(env, s, start, retries, world(turn));
    AppendAssociates(earlier, SentInTurn(env, s, start, retries, world(turn)),
                     if more then SentInTurns(env, t, start, retries, world, turn + 1, maxTurns) else []);
  }

  // ---- results stay paired ----

  // The calls that results may still answer are known by name.
  predicate NamesKnown(s: Snapshot) {
    forall c | c in CallsInScope(s.messages) :: c.id in s.toolNames && s.toolNames[c.id] == c.name
  }

  lemma {:induction false} InjectKeepsPaired(s: Snapshot, start: nat, rendered: seq<Message>)
    requires WellPaired(s.messages)
    ensures WellPaired(Inject(s, start, rendered).messages)
  {
    if rendered != [] {
      var n := |rendered| - 1;
      InjectKeepsPaired(s, start, rendered[..n]);
      var before := Inject(s, start, rendered[..n]);
      PushSystemKeepsPaired(before, rendered[n].content);
      UpsertUserKeepsPaired(before, start, rendered[n].content);
    }
  }

  lemma {:induction false} ListIsComplete(b: Builders, ids: seq<string>)
    ensures forall c | c in ListCalls(b, ids) :: c.id in ids && c.id in b
              && c == ToolCall(c.id, b[c.id].name, b[c.id].arguments)
    ensures forall id | id in ids && id in b :: exists c | c in ListCalls(b, ids) :: c.id == id
    ensures Distinct(ids) ==> forall i, j | 0 <= i < j < |ListCalls(b, ids)| ::
              ListCalls(b, ids)[i].id != ListCalls(b, ids)[j].id
  {
    if ids != [] {
      var n := |ids| - 1;
      ListIsComplete(b, ids[..n]);
      assert ids == ids[..n] + [ids[n]];
      var earlier, all := ListCalls(b, ids[..n]), ListCalls(b, ids);
      if ids[n] in b {
        assert all[|all| - 1].id == ids[n];
        if Distinct(ids) {
          forall i | 0 <= i < |earlier|
            ensures earlier[i].id != ids[n]
          {
            assert earlier[i] in earlier;
          }
        }
      }
    }
  }

  lemma {:induction false} CallsOnlyGrow(events: seq<StreamEvent>, calls: Builders)
    ensures forall id | id in calls :: id in CallsOf(events, calls)
    decreases |events|
  {
    if events != [] {
      CallsOnlyGrow(events[1..], AddToCalls(calls, events[0]));
    }
  }

  // The calls reported along the way are among those of the final message.
  lemma {:induction false} ReportedCallsAreBuilt(env: Setting, events: seq<StreamEvent>, calls: Builders)
    requires ListsAll(env.order)
    ensures forall e, c | e in AllTold(env, calls, events) && e.ToolCallRequired? && c in e.calls ::
              c.id in CallsOf(events, calls)
    decreases |events|
  {
    if events != [] {
      ReportedCallsAreBuilt(env, events[1..], AddToCalls(calls, events[0]));
      CallsOnlyGrow(events, calls);
      ListIsComplete(calls, env.order(calls));
    }
  }

  lemma {:induction false} RequiredCallsAreReported(events: seq<LoopEvent>)
    ensures forall c | c in RequiredCalls(events) :: exists e | e in events :: e.ToolCallRequired? && c in e.calls
  {
    if events != [] {
      RequiredCallsAreReported(events[..|events| - 1]);
      assert events == events[..|events| - 1] + [events[|events| - 1]];
    }
  }

  // Some call in scope has the id.
  predicate Answerable(s: Snapshot, id: string) {
    exists d | d in CallsInScope(s.messages) :: d.id == id
  }

  // The calls of an assistant message just pushed are in scope and known by name.
  lemma PushedCallsAreKnown(s: Snapshot, content: string, reasoning: string, b: Builders, ids: seq<string>)
    requires WellPaired(s.messages)
    requires Distinct(ids)
    ensures var t := PushAssistant(s, content, reasoning, Some(ListCalls(b, ids)));
            WellPaired(t.messages) && NamesKnown(t) && forall id | id in ids && id in b :: Answerable(t, id)
  {
    var t := PushAssistant(s, content, reasoning, Some(ListCalls(b, ids)));
    ListIsComplete(b, ids);
    NamedKnows(s.toolNames, ListCalls(b, ids));
    Snoc(s.messages, t.messages[|s.messages|]);
  }

  // Only calls that were built are required.
  lemma RequiredAreBuilt(env: Setting, events: seq<StreamEvent>)
    requires ListsAll(env.order)
    ensures forall c | c in RequiredCalls(AllTold(env, map[], events)) :: c.id in CallsOf(events, map[])
  {
    RequiredCallsAreReported(AllTold(env, map[], events));
    ReportedCallsAreBuilt(env, events, map[]);
  }

  // A streamed answer is paired, and every call that was built can be answered.
  lemma AnsweredIsPaired(env: Setting, s: Snapshot, events: seq<StreamEvent>)
    requires ListsAll(env.order) && WellPaired(s.messages)
    ensures var t, built := Answered(env, s, events), CallsOf(events, map[]);
            WellPaired(t.messages)
            && (built != map[] ==> NamesKnown(t) && forall id | id in built :: Answerable(t, id))
  {
    var t, built := Answered(env, s, events), CallsOf(events, map[]);
    if built == map[] {
      Snoc(s.messages, t.messages[|s.messages|]);
    } else {
      var u := s.(tokenUsage := s.tokenUsage + AllUsage(events));
      PushedCallsAreKnown(u, AllTokens(events), AllReasoning(events), built, env.order(built));
      assert t == PushAssistant(u, AllTokens(events), AllReasoning(events), Some(ListCalls(built, env.order(built))));
    }
  }

  // After an attempt the conversation is paired and every call it requires can be answered.
  lemma TryKeepsPaired(env: Setting, s: Snapshot, attempt: Attempt)
    requires ListsAll(env.order) && WellPaired(s.messages)
    ensures var (t, events) := Try(env, s, attempt);
            WellPaired(t.messages)
            && (RequiredCalls(events) != [] ==> NamesKnown(t))
            && forall c | c in RequiredCalls(events) :: Answerable(t, c.id)
  {
    var (t, events) := Try(env, s, attempt);
    match attempt {
      case NoConnection(message, retryable) =>
        var failed := [Failed(message, retryable)];
        assert failed[..0] == [];
        assert RequiredCalls(failed) == [];
      case Streamed(stream) =>
        RequiredAreBuilt(env, stream);
        AnsweredIsPaired(env, s, stream);
        if RequiredCalls(events) != [] {
          assert RequiredCalls(events)[0] in RequiredCalls(events);
        }
    }
  }

  lemma ResultKeepsPaired(s: Snapshot, id: string, output: string)
    requires WellPaired(s.messages) && NamesKnown(s) && Answerable(s, id)
    ensures var t := PushToolResult(s, id, output, None);
            WellPaired(t.messages) && t.toolNames == s.toolNames && CallsInScope(t.messages) == CallsInScope(s.messages)
  {
    var t := PushToolResult(s, id, output, None);
    var d :| d in CallsInScope(s.messages) && d.id == id;
    Snoc(s.messages, t.messages[|s.messages|]);
  }

  lemma {:induction false} ExecuteKeepsPaired(s: Snapshot, calls: seq<ToolCall>, output: nat -> string)
    requires WellPaired(s.messages) && NamesKnown(s)
    requires forall c | c in calls :: Answerable(s, c.id)
    ensures var t := Execute(s, calls, output).0;
            WellPaired(t.messages) && t.toolNames == s.toolNames && CallsInScope(t.messages) == CallsInScope(s.messages)
  {
    if calls != [] {
      var n := |calls| - 1;
      assert forall c | c in calls[..n] :: c in calls;
      ExecuteKeepsPaired(s, calls[..n], output);
      assert calls[n] in calls;
      ResultKeepsPaired(Execute(s, calls[..n], output).0, calls[n].id, output(n));
    }
  }

  /** One turn, with any prompt, any attempts and any tool output, keeps results paired. */
  lemma TurnKeepsPaired(env: Setting, s: Snapshot, start: nat, retries: bool, input: TurnInput)
    requires ListsAll(env.order) && WellPaired(s.messages)
    ensures WellPaired(Turn(env, s, start, retries, input).0.messages)
  {
    if input.Compiled? {
      InjectKeepsPaired(s, start, input.rendered);
      TrimKeepsPaired(env.estimate, Inject(s, start, input.rendered), env.budget);
      var prepared := Prepare(env, s, start, input.rendered);
      var k := FinalAttempt(env, prepared, input.attempts, Allowed(retries), 0);
      TryKeepsPaired(env, prepared, input.attempts(k));
      var (answered, events) := Try(env, prepared, input.attempts(k));
      if RequiredCalls(events) != [] {
        ExecuteKeepsPaired(answered, RequiredCalls(events), input.toolOutput);
      }
    }
  }

  /** Main theorem: from a well-paired history, every run of any length leaves a well-paired
      history, across trimming, retries, broken streams and tool calls of any shape. */
  lemma {:induction false} RunsKeepPaired(env: Setting, s: Snapshot, start: nat, retries: bool,
                                          world: nat -> TurnInput, turn: nat, maxTurns: nat)
    requires turn <= maxTurns && ListsAll(env.order) && WellPaired(s.messages)
    ensures WellPaired(Turns(env, s, start, retries, world, turn, maxTurns).0.messages)
    decreases maxTurns - turn
  {
    if turn < maxTurns {
      TurnKeepsPaired(env, s, start, retries, world(turn));
      var (t, _, more) := Turn(env, s, start, retries, world(turn));
      if more {
        RunsKeepPaired(env, t, start, retries, world, turn + 1, maxTurns);
      }
    }
  }

  // ---- every history on the way ----

  // The message lists a turn passes through: after each injected message, after trimming and
  // while streaming, after each attempt, and after each tool result.
  ghost predicate PassedInTurn(env: Setting, s: Snapshot, start: nat, retries: bool, input: TurnInput,
                               msgs: seq<Message>) {
    match input
    case CompileFails(_) => msgs == s.messages
    case Compiled(rendered, attempts, output) =>
      var prepared := Prepare(env, s, start, rendered);
      var k := FinalAttempt(env, prepared, attempts, Allowed(retries), 0);
      var (answered, events) := Try(env, prepared, attempts(k));
      || (exists i | 0 <= i <= |rendered| :: msgs == Inject(s, start, rendered[..i]).messages)
      || msgs == prepared.messages
      || (exists j: nat | j <= k :: msgs == Try(env, prepared, attempts(j)).0.messages)
      || (exists i | 0 <= i <= |RequiredCalls(events)| ::
            msgs == Execute(answered, RequiredCalls(events)[..i], output).0.messages)
  }

  ghost predicate PassedInTurns(env: Setting, s: Snapshot, start: nat, retries: bool, world: nat -> TurnInput,
                                turn: nat, maxTurns: nat, msgs: seq<Message>)
    requires turn <= maxTurns
    decreases maxTurns - turn
  {
    if turn == maxTurns then msgs == s.messages
    else
      var (t, _, more) := Turn(env, s, start, retries, world(turn));
      PassedInTurn(env, s, start, retries, world(turn), msgs)
      || (more && PassedInTurns(env, t, start, retries, world, turn + 1, maxTurns, msgs))
  }

  lemma AnsweringKeepsPaired(env: Setting, prepared: Snapshot, attempt: Attempt, output: nat -> string, i: nat)
    requires ListsAll(env.order) && WellPaired(prepared.messages)
    requires i <= |RequiredCalls(Try(env, prepared, attempt).1)|
    ensures var (answered, events) := Try(env, prepared, attempt);
            WellPaired(Execute(answered, RequiredCalls(events)[..i], output).0.messages)
  {
    var (answered, events) := Try(env, prepared, attempt);
    TryKeepsPaired(env, prepared, attempt);
    var calls := RequiredCalls(events);
    if i > 0 {
      assert forall c | c in calls[..i] :: c in calls;
      ExecuteKeepsPaired(answered, calls[..i], output);
    }
  }

  /** Every message list a turn passes through is well-paired. */
  lemma TurnPassesPaired(env: Setting, s: Snapshot, start: nat, retries: bool, input: TurnInput, msgs: seq<Message>)
    requires ListsAll(env.order) && WellPaired(s.messages)
    requires PassedInTurn(env, s, start, retries, input, msgs)
    ensures WellPaired(msgs)
  {
    if input.Compiled? {
      var prepared := Prepare(env, s, start, input.rendered);
      var k := FinalAttempt(env, prepared, input.attempts, Allowed(retries), 0);
      var (answered, events) := Try(env, prepared, input.attempts(k));
      PreparedIsPaired(env, s, start, input.rendered);
      if i :| 0 <= i <= |input.rendered| && msgs == Inject(s, start, input.rendered[..i]).messages {
        InjectKeepsPaired(s, start, input.rendered[..i]);
      } else if j: nat :| j <= k && msgs == Try(env, prepared, input.attempts(j)).0.messages {
        TryKeepsPaired(env, prepared, input.attempts(j));
      } else if i :| 0 <= i <= |RequiredCalls(events)|
                     && msgs == Execute(answered, RequiredCalls(events)[..i], input.toolOutput).0.messages {
        AnsweringKeepsPaired(env, prepared, input.attempts(k), input.toolOutput, i);
      }
    }
  }

  lemma PreparedIsPaired(env: Setting, s: Snapshot, start: nat, rendered: seq<Message>)
    requires WellPaired(s.messages)
    ensures WellPaired(Prepare(env, s, start, rendered).messages)
  {
    InjectKeepsPaired(s, start, rendered);
    TrimKeepsPaired(env.estimate, Inject(s, start, rendered), env.budget);
  }

  /** Every state a run passes through, whatever happens in it, has a well-paired history. */
  lemma {:induction false} RunsPassPaired(env: Setting, s: Snapshot, start: nat, retries: bool, world: nat -> TurnInput,
                                          turn: nat, maxTurns: nat, msgs: seq<Message>)
    requires turn <= maxTurns && ListsAll(env.order) && WellPaired(s.messages)
    requires PassedInTurns(env, s, start, retries, world, turn, maxTurns, msgs)
    ensures WellPaired(msgs)
    decreases maxTurns - turn
  {
    hide Turn, PassedInTurn;
    if turn < maxTurns {
      if PassedInTurn(env, s, start, retries, world(turn), msgs) {
        TurnPassesPaired(env, s, start, retries, world(turn), msgs);
      } else {
        TurnKeepsPaired(env, s, start, retries, world(turn));
        RunsPassPaired(env, Turn(env, s, start, retries, world(turn)).0, start, retries, world, turn + 1, maxTurns, msgs);
      }
    }
  }

  lemma {:induction false} Repeated<T>(x: T, n: nat)
    ensures forall y | y in Repeat(x, n) :: y == x
  {
    if n > 0 {
      Repeated(x, n - 1);
    }
  }

  // What is sent is among what a run passes through.
  lemma {:induction false} SentIsPassed(env: Setting, s: Snapshot, start: nat, retries: bool, world: nat -> TurnInput,
                                        turn: nat, maxTurns: nat, msgs: seq<Message>)
    requires turn <= maxTurns && msgs in SentInTurns(env, s, start, retries, world, turn, maxTurns)
    ensures PassedInTurns(env, s, start, retries, world, turn, maxTurns, msgs)
    decreases maxTurns - turn
  {
    hide Turn, PassedInTurn;
    if msgs in SentInTurn(env, s, start, retries, world(turn)) {
      SentInTurnIsPassed(env, s, start, retries, world(turn), msgs);
    } else {
      SentIsPassed(env, Turn(env, s, start, retries, world(turn)).0, start, retries, world, turn + 1, maxTurns, msgs);
    }
  }

  lemma SentInTurnIsPassed(env: Setting, s: Snapshot, start: nat, retries: bool, input: TurnInput, msgs: seq<Message>)
    requires msgs in SentInTurn(env, s, start, retries, input)
    ensures PassedInTurn(env, s, start, retries, input, msgs)
  {
    var prepared := Prepare(env, s, start, input.rendered);
    Repeated(prepared.messages, FinalAttempt(env, prepared, input.attempts, Allowed(retries), 0) + 1);
  }

  /** From a well-paired history, whatever happens in a run: every history the provider is sent
      is well-paired, and well-formed on the wire, where each tool result answers a tool use of
      the message immediately before it. */
  lemma SentIsWellFormed(env: Setting, s: Snapshot, retries: bool, world: nat -> TurnInput, maxTurns: nat,
                         read: AnthropicTransport.ArgumentReader, msgs: seq<Message>)
    requires ListsAll(env.order) && WellPaired(s.messages)
    requires msgs in SentInTurns(env, s, |s.messages|, retries, world, 0, maxTurns)
    ensures WellPaired(msgs)
    ensures AnthropicTransport.WirePaired(AnthropicTransport.Normalize(read, msgs).messages)
  {
    hide Turn, SentInTurn, PassedInTurn;
    SentIsPassed(env, s, |s.messages|, retries, world, 0, maxTurns, msgs);
    RunsPassPaired(env, s, |s.messages|, retries, world, 0, maxTurns, msgs);
    AnthropicTransport.PairingSurvivesTranslation(read, msgs);
  }

  /** So is the history a run leaves. */
  lemma RunsStayWellFormedOnTheWire(env: Setting, s: Snapshot, retries: bool, world: nat -> TurnInput, maxTurns: nat,
                                    read: AnthropicTransport.ArgumentReader)
    requires ListsAll(env.order) && WellPaired(s.messages)
    ensures var t := Turns(env, s, |s.messages|, retries, world, 0, maxTurns).0;
            AnthropicTransport.WirePaired(AnthropicTransport.Normalize(read, t.messages).messages)
  {
    RunsKeepPaired(env, s, |s.messages|, retries, world, 0, maxTurns);
    var t := Turns(env, s, |s.messages|, retries, world, 0, maxTurns).0;
    AnthropicTransport.PairingSurvivesTranslation(read, t.messages);
  }
}

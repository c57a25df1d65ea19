/** The other half of pairing: not only does every tool result answer a call, every call is
    answered. A stream that starts a call after its last `Done` breaks it, and nothing else does. */
module AnsweredCalls {
  import opened Text
  import opened StreamEvents
  import opened ChatComplete
  import opened Conversation
  import opened AgentState
  import opened AgentLoop

  // Among the tool results at the front there is one for the call.
  predicate ResultFollows(c: ToolCall, rest: seq<Message>) {
    rest != [] && rest[0].role == Tool && (rest[0].toolCallId == Some(c.id) || ResultFollows(c, rest[1..]))
  }

  // Every call of every assistant message has a result among those that directly follow it.
  predicate AllAnswered(msgs: seq<Message>) {
    msgs == [] ||
    ((IsCaller(msgs[0]) ==> forall c | c in msgs[0].toolCalls.value :: ResultFollows(c, msgs[1..]))
     && AllAnswered(msgs[1..]))
  }

  /** The same, spelled out. */
  lemma {:induction false} AllAnsweredMeans(msgs: seq<Message>, i: nat, c: ToolCall)
    requires AllAnswered(msgs) && i < |msgs| && IsCaller(msgs[i]) && c in msgs[i].toolCalls.value
    ensures exists j | i < j < |msgs| :: msgs[j].toolCallId == Some(c.id) && forall k | i < k <= j ::
              msgs[k].role == Tool
  {
    if i > 0 {
      AllAnsweredMeans(msgs[1..], i - 1, c);
      var j :| i - 1 < j < |msgs| - 1 && msgs[1..][j].toolCallId == Some(c.id)
        && forall k | i - 1 < k <= j :: msgs[1..][k].role == Tool;
      assert msgs[j + 1] == msgs[1..][j];
      assert forall k | i < k <= j + 1 :: msgs[k] == msgs[1..][k - 1];
    } else {
      var j := ResultAt(c, msgs[1..]);
      assert msgs[j + 1] == msgs[1..][j];
      assert forall k | 0 < k <= j + 1 :: msgs[k] == msgs[1..][k - 1];
    }
  }

  lemma {:induction false} ResultAt(c: ToolCall, rest: seq<Message>) returns (j: nat)
    requires ResultFollows(c, rest)
    ensures j < |rest| && rest[j].toolCallId == Some(c.id) && forall k | 0 <= k <= j :: rest[k].role == Tool
  {
    if rest[0].toolCallId == Some(c.id) {
      j := 0;
    } else {
      var before := ResultAt(c, rest[1..]);
      j := before + 1;
      assert forall k | 1 <= k <= j :: rest[k] == rest[1..][k - 1];
    }
  }

  // ---- taking conversations apart and together ----

  lemma {:induction false} ResultFollowsIn(c: ToolCall, a: seq<Message>, b: seq<Message>)
    requires b == [] || b[0].role != Tool
    ensures ResultFollows(c, a + b) <==> ResultFollows(c, a)
    decreases |a|
  {
    if a == [] {
      assert a + b == b;
    } else {
      assert (a + b)[1..] == a[1..] + b;
      ResultFollowsIn(c, a[1..], b);
    }
  }

  lemma {:induction false} AnsweredParts(a: seq<Message>, b: seq<Message>)
    requires b == [] || b[0].role != Tool
    ensures AllAnswered(a + b) <==> AllAnswered(a) && AllAnswered(b)
    decreases |a|
  {
    if a == [] {
      assert a + b == b;
    } else {
      assert (a + b)[1..] == a[1..] + b;
      AnsweredParts(a[1..], b);
      forall c: ToolCall
        ensures ResultFollows(c, a[1..] + b) <==> ResultFollows(c, a[1..])
      {
        ResultFollowsIn(c, a[1..], b);
      }
    }
  }

  lemma {:induction false} AnsweredSuffix(msgs: seq<Message>, k: nat)
    requires AllAnswered(msgs) && k <= |msgs|
    ensures AllAnswered(msgs[k..])
  {
    if k > 0 {
      AnsweredSuffix(msgs[1..], k - 1);
      assert msgs[1..][k - 1..] == msgs[k..];
    } else {
      assert msgs[0..] == msgs;
    }
  }

  // Messages without calls.
  lemma {:induction false} NoCallers(msgs: seq<Message>)
    requires forall m | m in msgs :: !IsCaller(m)
    ensures AllAnswered(msgs)
  {
    if msgs != [] {
      assert msgs[0] in msgs;
      NoCallers(msgs[1..]);
    }
  }

  lemma {:induction false} WithoutSystemCons(m: Message, rest: seq<Message>)
    ensures WithoutSystem([m] + rest) == (if m.role != System then [m] else []) + WithoutSystem(rest)
  {
    var all := [m] + rest;
    if rest == [] {
      assert all == [m] && [m][..0] == [];
    } else {
      var n := |rest| - 1;
      assert all[..|all| - 1] == [m] + rest[..n];
      WithoutSystemCons(m, rest[..n]);
    }
  }

  lemma {:induction false} ResultFollowsWithoutSystem(c: ToolCall, rest: seq<Message>)
    requires ResultFollows(c, rest)
    ensures ResultFollows(c, WithoutSystem(rest))
  {
    assert rest == [rest[0]] + rest[1..];
    WithoutSystemCons(rest[0], rest[1..]);
    assert WithoutSystem(rest)[1..] == WithoutSystem(rest[1..]);
    if rest[0].toolCallId != Some(c.id) {
      ResultFollowsWithoutSystem(c, rest[1..]);
    }
  }

  lemma {:induction false} WithoutSystemIsAnswered(msgs: seq<Message>)
    requires AllAnswered(msgs)
    ensures AllAnswered(WithoutSystem(msgs))
  {
    if msgs != [] {
      var m, rest := msgs[0], msgs[1..];
      assert msgs == [m] + rest;
      WithoutSystemCons(m, rest);
      WithoutSystemIsAnswered(rest);
      if m.role != System {
        assert WithoutSystem(msgs)[1..] == WithoutSystem(rest);
        forall c | IsCaller(m) && c in m.toolCalls.value
          ensures ResultFollows(c, WithoutSystem(rest))
        {
          ResultFollowsWithoutSystem(c, rest);
        }
      } else {
        assert [] + WithoutSystem(rest) == WithoutSystem(rest);
      }
    }
  }

  // ---- before anything is sent ----

  lemma {:induction false} ResultStaysThere(c: ToolCall, rest: seq<Message>, k: nat, m: Message)
    requires k < |rest| && rest[k].role != Tool && m.role != Tool
    ensures ResultFollows(c, rest[k := m]) <==> ResultFollows(c, rest)
  {
    if k > 0 {
      assert rest[k := m][1..] == rest[1..][k - 1 := m];
      ResultStaysThere(c, rest[1..], k - 1, m);
    }
  }

  lemma {:induction false} ReplacingContentKeepsAnswers(msgs: seq<Message>, k: nat, content: string)
    requires k < |msgs| && msgs[k].role != Tool && AllAnswered(msgs)
    ensures AllAnswered(msgs[k := msgs[k].(content := content)])
  {
    var m := msgs[k].(content := content);
    var replaced := msgs[k := m];
    if k > 0 {
      var rest := msgs[1..];
      assert replaced[1..] == rest[k - 1 := rest[k - 1].(content := content)];
      ReplacingContentKeepsAnswers(rest, k - 1, content);
      forall c: ToolCall
        ensures ResultFollows(c, replaced[1..]) <==> ResultFollows(c, rest)
      {
        ResultStaysThere(c, rest, k - 1, m);
      }
    } else {
      assert replaced[1..] == msgs[1..];
    }
  }

  lemma PushSystemKeepsAnswers(s: Snapshot, content: string)
    requires AllAnswered(s.messages)
    ensures AllAnswered(PushSystem(s, content).messages)
  {
    var k := FirstWithRole(s.messages, System, 0);
    if k < |s.messages| {
      ReplacingContentKeepsAnswers(s.messages, k, content);
    } else {
      assert ([Plain(System, content)] + s.messages)[1..] == s.messages;
    }
  }

  lemma UpsertUserKeepsAnswers(s: Snapshot, start: nat, content: string)
    requires AllAnswered(s.messages)
    ensures AllAnswered(UpsertUser(s, start, content).messages)
  {
    NoCallers([Plain(User, content)]);
    AnsweredParts(s.messages, [Plain(User, content)]);
    if start <= |s.messages| {
      var k := FirstWithRole(s.messages, User, start);
      if k < |s.messages| {
        ReplacingContentKeepsAnswers(s.messages, k, content);
      }
    }
  }

  lemma {:induction false} InjectKeepsAnswers(s: Snapshot, start: nat, rendered: seq<Message>)
    requires AllAnswered(s.messages)
    ensures AllAnswered(Inject(s, start, rendered).messages)
  {
    hide AllAnswered, PushSystem, UpsertUser;
    if rendered != [] {
      var n := |rendered| - 1;
      InjectKeepsAnswers(s, start, rendered[..n]);
      var before := Inject(s, start, rendered[..n]);
      PushSystemKeepsAnswers(before, rendered[n].content);
      UpsertUserKeepsAnswers(before, start, rendered[n].content);
    }
  }

  /** Trimming never takes results away from a call it keeps, in any history. */
  lemma TrimKeepsAnswers(est: Estimator, s: Snapshot, budget: nat)
    requires AllAnswered(s.messages)
    ensures AllAnswered(TrimTo(est, s, budget).messages)
  {
    hide EarliestCut, Total, OnlySystem, WithoutSystem, SourcesFor;
    var system, others := OnlySystem(s.messages), WithoutSystem(s.messages);
    if |others| > 2 {
      var k := EarliestCut(est, others, 0, Total(est, system), budget);
      OnlySystemIsSystem(s.messages);
      WithoutSystemIsAnswered(s.messages);
      AnsweredSuffix(others, k);
      SystemInFront(system, others[k..]);
    }
  }

  lemma {:induction false} SystemInFront(system: seq<Message>, others: seq<Message>)
    requires (forall m | m in system :: m.role == System) && AllAnswered(others)
    ensures AllAnswered(system + others)
  {
    if system == [] {
      assert system + others == others;
    } else {
      assert (system + others)[1..] == system[1..] + others;
      assert system[0] in system;
      SystemInFront(system[1..], others);
    }
  }

  lemma PreparedIsAnswered(env: Setting, s: Snapshot, start: nat, rendered: seq<Message>)
    requires AllAnswered(s.messages)
    ensures AllAnswered(Prepare(env, s, start, rendered).messages)
  {
    InjectKeepsAnswers(s, start, rendered);
    TrimKeepsAnswers(env.estimate, Inject(s, start, rendered), env.budget);
  }

  // ---- which calls are executed ----

  // The stream starts the call and comes to a `Done` afterwards.
  ghost predicate DoneAfterStart(events: seq<StreamEvent>, id: string) {
    exists i, j | 0 <= i < j < |events| :: events[i].ToolCallStart? && events[i].id == id && events[j].Done?
  }

  ghost predicate Started(events: seq<StreamEvent>, id: string) {
    exists i | 0 <= i < |events| :: events[i].ToolCallStart? && events[i].id == id
  }

  // The same, event by event.
  predicate DoneFollows(events: seq<StreamEvent>, id: string, started: bool) {
    events != [] &&
    ((events[0].Done? && started)
     || DoneFollows(events[1..], id, started || (events[0].ToolCallStart? && events[0].id == id)))
  }

  lemma {:induction false} DoneFollowsMeans(events: seq<StreamEvent>, id: string, started: bool)
    ensures DoneFollows(events, id, started) <==>
              DoneAfterStart(events, id) || (started && exists j | 0 <= j < |events| :: events[j].Done?)
  {
    if events != [] {
      var rest := events[1..];
      var next := started || (events[0].ToolCallStart? && events[0].id == id);
      DoneFollowsMeans(rest, id, next);
      if DoneFollows(rest, id, next) {
        if i, j :| 0 <= i < j < |rest| && rest[i].ToolCallStart? && rest[i].id == id && rest[j].Done? {
          assert events[i + 1] == rest[i] && events[j + 1] == rest[j];
        } else {
          var j :| 0 <= j < |rest| && rest[j].Done?;
          assert events[j + 1] == rest[j];
        }
      }
      if i, j :| 0 <= i < j < |events| && events[i].ToolCallStart? && events[i].id == id && events[j].Done? {
        assert rest[j - 1] == events[j];
        if i > 0 { assert rest[i - 1] == events[i]; }
      }
      if j :| started && 0 <= j < |events| && events[j].Done? {
        if j > 0 { assert rest[j - 1] == events[j]; }
      }
    }
  }

  ghost predicate Told(events: seq<LoopEvent>, id: string) {
    exists e, c | e in events && e.ToolCallRequired? && c in e.calls :: c.id == id
  }

  // The observer is told of a call exactly when a `Done` follows its start.
  lemma {:induction false} ToldWhenDone(env: Setting, calls: Builders, events: seq<StreamEvent>, id: string)
    requires ListsAll(env.order)
    ensures Told(AllTold(env, calls, events), id) <==> DoneFollows(events, id, id in calls)
    decreases |events|
  {
    if events != [] {
      var first, rest := AgentLoop.Told(env, calls, events[0]), AllTold(env, AddToCalls(calls, events[0]), events[1..]);
      ToldWhenDone(env, AddToCalls(calls, events[0]), events[1..], id);
      ToldAtOnce(env, calls, events[0], id);
      ToldParts(first, rest, id);
    }
  }

  lemma ToldParts(first: seq<LoopEvent>, rest: seq<LoopEvent>, id: string)
    ensures Told(first + rest, id) <==> Told(first, id) || Told(rest, id)
  {
    if Told(first, id) {
      var e, c :| e in first && e.ToolCallRequired? && c in e.calls && c.id == id;
      assert e in first + rest;
    }
    if Told(rest, id) {
      var e, c :| e in rest && e.ToolCallRequired? && c in e.calls && c.id == id;
      assert e in first + rest;
    }
  }

  lemma ToldAtOnce(env: Setting, calls: Builders, event: StreamEvent, id: string)
    requires ListsAll(env.order)
    ensures Told(AgentLoop.Told(env, calls, event), id) <==> event.Done? && id in calls
  {
    if event.Done? {
      ListIsComplete(calls, env.order(calls));
      if id in calls {
        var c :| c in CallsIn(env, calls) && c.id == id;
        assert ToolCallRequired(CallsIn(env, calls)) in AgentLoop.Told(env, calls, event);
      }
    }
  }

  lemma {:induction false} RequiredIsTold(events: seq<LoopEvent>, id: string)
    ensures (exists c | c in RequiredCalls(events) :: c.id == id) <==> Told(events, id)
  {
    if events != [] {
      var n := |events| - 1;
      assert events == events[..n] + [events[n]];
      RequiredIsTold(events[..n], id);
      ToldParts(events[..n], [events[n]], id);
      assert events[n] in [events[n]];
    }
  }

  lemma {:induction false} BuiltIsStarted(events: seq<StreamEvent>, calls: Builders, id: string)
    ensures id in CallsOf(events, calls) <==> id in calls || Started(events, id)
    decreases |events|
  {
    if events != [] {
      BuiltIsStarted(events[1..], AddToCalls(calls, events[0]), id);
      if i :| 0 <= i < |events[1..]| && events[1..][i].ToolCallStart? && events[1..][i].id == id {
        assert events[i + 1] == events[1..][i];
      }
      if i :| 0 <= i < |events| && events[i].ToolCallStart? && events[i].id == id {
        if i > 0 { assert events[1..][i - 1] == events[i]; }
      }
    }
  }

  // ---- one turn ----

  lemma ResultIsPushed(s: Snapshot, id: string, output: string) returns (m: Message)
    ensures PushToolResult(s, id, output, None).messages == s.messages + [m]
    ensures m.role == Tool && m.toolCallId == Some(id)
  {
    hide Shortened, Wrapped;
    m := PushToolResult(s, id, output, None).messages[|s.messages|];
  }

  lemma {:induction false} ExecuteAppends(s: Snapshot, calls: seq<ToolCall>, output: nat -> string)
    returns (results: seq<Message>)
    ensures Execute(s, calls, output).0.messages == s.messages + results && |results| == |calls|
    ensures forall i | 0 <= i < |calls| :: results[i].role == Tool && results[i].toolCallId == Some(calls[i].id)
  {
    hide PushToolResult;
    results := [];
    if calls != [] {
      var n := |calls| - 1;
      var before := ExecuteAppends(s, calls[..n], output);
      var m := ResultIsPushed(Execute(s, calls[..n], output).0, calls[n].id, output(n));
      results := before + [m];
      AppendAssociates(s.messages, before, [m]);
    }
  }

  lemma {:induction false} ResultAmong(c: ToolCall, results: seq<Message>)
    requires forall m | m in results :: m.role == Tool
    ensures ResultFollows(c, results) <==> exists m | m in results :: m.toolCallId == Some(c.id)
  {
    if results != [] {
      assert results == [results[0]] + results[1..];
      ResultAmong(c, results[1..]);
    }
  }

  // An assistant message and the results after it.
  lemma CallerWithResults(caller: Message, calls: seq<ToolCall>, results: seq<Message>)
    requires IsCaller(caller) && |results| == |calls|
    requires forall i | 0 <= i < |calls| :: results[i].role == Tool && results[i].toolCallId == Some(calls[i].id)
    ensures AllAnswered([caller] + results) <==>
              forall c | c in caller.toolCalls.value :: exists d | d in calls :: d.id == c.id
  {
    NoCallers(results);
    assert ([caller] + results)[1..] == results;
    forall c: ToolCall
      ensures ResultFollows(c, results) <==> exists d | d in calls :: d.id == c.id
    {
      ResultAmong(c, results);
      ResultsHaveIds(calls, results, c.id);
    }
  }

  lemma ResultsHaveIds(calls: seq<ToolCall>, results: seq<Message>, id: string)
    requires |results| == |calls| && forall i | 0 <= i < |calls| :: results[i].toolCallId == Some(calls[i].id)
    ensures (exists m | m in results :: m.toolCallId == Some(id)) <==> exists d | d in calls :: d.id == id
  {
    if d :| d in calls && d.id == id {
      var i :| 0 <= i < |calls| && calls[i] == d;
      assert results[i] in results;
    }
    if m :| m in results && m.toolCallId == Some(id) {
      var i :| 0 <= i < |results| && results[i] == m;
      assert calls[i] in calls;
    }
  }

  // Every call the stream starts is followed by a `Done`.
  ghost predicate NoneStartsLate(events: seq<StreamEvent>) {
    forall id | Started(events, id) :: DoneAfterStart(events, id)
  }

  // The ids executed are those started that a `Done` follows.
  lemma ExecutedIds(env: Setting, events: seq<StreamEvent>, id: string)
    requires ListsAll(env.order)
    ensures (exists d | d in RequiredCalls(AllTold(env, map[], events)) :: d.id == id) <==> DoneAfterStart(events, id)
  {
    RequiredIsTold(AllTold(env, map[], events), id);
    ToldWhenDone(env, map[], events, id);
    DoneFollowsMeans(events, id, false);
  }

  // The ids of the assistant message are those started.
  lemma PushedIds(env: Setting, events: seq<StreamEvent>, id: string)
    requires ListsAll(env.order)
    ensures (exists c | c in CallsIn(env, CallsOf(events, map[])) :: c.id == id) <==> Started(events, id)
  {
    var built := CallsOf(events, map[]);
    ListIsComplete(built, env.order(built));
    BuiltIsStarted(events, map[], id);
  }

  lemma AnsweringStream(env: Setting, s: Snapshot, events: seq<StreamEvent>, output: nat -> string)
    requires ListsAll(env.order) && RequiredCalls(AllTold(env, map[], events)) != []
    ensures AllAnswered(Execute(Answered(env, s, events), RequiredCalls(AllTold(env, map[], events)), output).0.messages)
            <==> AllAnswered(s.messages) && NoneStartsLate(events)
  {
    hide AllAnswered, Execute, RequiredCalls, AllTold, DoneAfterStart, Started, CallsOf, CallsIn, ListsAll;
    var calls, built := RequiredCalls(AllTold(env, map[], events)), CallsOf(events, map[]);
    var t := Answered(env, s, events);
    var results := ExecuteAppends(t, calls, output);
    var caller := t.messages[|s.messages|];
    RequiredAreBuilt(env, events);
    assert calls[0] in calls && built != map[];
    assert t.messages + results == s.messages + ([caller] + results);
    AnsweredParts(s.messages, [caller] + results);
    CallerWithResults(caller, calls, results);
    assert caller.toolCalls == Some(CallsIn(env, built));
    forall id: string
      ensures (exists d | d in calls :: d.id == id) <==> DoneAfterStart(events, id)
      ensures (exists c | c in CallsIn(env, built) :: c.id == id) <==> Started(events, id)
    {
      ExecutedIds(env, events, id);
      PushedIds(env, events, id);
    }
    assert (forall c | c in CallsIn(env, built) :: exists d | d in calls :: d.id == c.id)
        <==> NoneStartsLate(events) by {
      forall c | c in CallsIn(env, built)
        ensures Started(events, c.id)
        ensures (exists d | d in calls :: d.id == c.id) <==> DoneAfterStart(events, c.id)
      {
      }
    }
  }

  // The stream a turn is answered with.
  function FinalStream(env: Setting, s: Snapshot, start: nat, retries: bool, input: TurnInput): seq<StreamEvent> {
    match input
    case CompileFails(_) => []
    case Compiled(rendered, attempts, _) =>
      var final := attempts(FinalAttempt(env, Prepare(env, s, start, rendered), attempts, Allowed(retries), 0));
      if final.Streamed? then final.events else []
  }

  /** A turn after which the loop goes on leaves every call answered exactly when every call was
      answered in what it sent and its final stream starts no call after its last `Done`. */
  lemma TurnAnswersAll(env: Setting, s: Snapshot, start: nat, retries: bool, input: TurnInput)
    requires ListsAll(env.order) && input.Compiled? && Turn(env, s, start, retries, input).2
    ensures AllAnswered(Turn(env, s, start, retries, input).0.messages)
            <==> AllAnswered(Prepare(env, s, start, input.rendered).messages)
                 && NoneStartsLate(FinalStream(env, s, start, retries, input))
  {
    hide AllAnswered, NoneStartsLate, ListsAll, Prepare;
    var prepared := Prepare(env, s, start, input.rendered);
    var final := input.attempts(FinalAttempt(env, prepared, input.attempts, Allowed(retries), 0));
    match final {
      case NoConnection(message, retryable) =>
        assert RequiredCalls([Failed(message, retryable)][..0]) == [];
      case Streamed(events) =>
        AnsweringStream(env, prepared, events, input.toolOutput);
    }
  }

  const LATE := [ToolCallStart("1", "f"), Done("tool_calls", None), ToolCallStart("2", "g")]

  /** Such a stream: the second call comes after the only `Done`. It is part of the message, is not
      executed, and the loop goes on all the same. */
  lemma LateCallIsNotAnswered(env: Setting, s: Snapshot, start: nat, retries: bool, rendered: seq<Message>,
                              output: nat -> string)
    requires ListsAll(env.order) && env.executes
    ensures var (t, _, more) := Turn(env, s, start, retries, Compiled(rendered, k => Streamed(LATE), output));
            more && !AllAnswered(t.messages)
  {
    hide AllAnswered, ListsAll, Prepare, CallsOf, AllTold, RequiredCalls;
    assert LATE[0].id == "1" && LATE[2].id == "2" && "1"[0] != "2"[0];
    assert LATE[0].ToolCallStart? && LATE[1].Done?;
    assert DoneAfterStart(LATE, "1");
    ExecutedIds(env, LATE, "1");
    var input := Compiled(rendered, k => Streamed(LATE), output);
    assert FinalStream(env, s, start, retries, input) == LATE;
    assert Started(LATE, "2") && !DoneAfterStart(LATE, "2");
    TurnAnswersAll(env, s, start, retries, input);
  }

  // ---- whole runs ----

  // No turn after which the loop goes on has a final stream that starts a call too late.
  ghost predicate NoTurnStartsLate(env: Setting, s: Snapshot, start: nat, retries: bool, world: nat -> TurnInput,
                                   turn: nat, maxTurns: nat)
    requires turn <= maxTurns
    decreases maxTurns - turn
  {
    turn == maxTurns ||
    var (t, _, more) := Turn(env, s, start, retries, world(turn));
    more ==> NoneStartsLate(FinalStream(env, s, start, retries, world(turn)))
             && NoTurnStartsLate(env, t, start, retries, world, turn + 1, maxTurns)
  }

  /** In such a run every history the provider is sent has every call answered. */
  lemma {:induction false} SentIsAnswered(env: Setting, s: Snapshot, start: nat, retries: bool, world: nat -> TurnInput,
                                          turn: nat, maxTurns: nat, msgs: seq<Message>)
    requires turn <= maxTurns && ListsAll(env.order) && AllAnswered(s.messages)
    requires NoTurnStartsLate(env, s, start, retries, world, turn, maxTurns)
    requires msgs in SentInTurns(env, s, start, retries, world, turn, maxTurns)
    ensures AllAnswered(msgs)
    decreases maxTurns - turn
  {
    hide AllAnswered, Turn, SentInTurn, ListsAll, FinalStream, NoneStartsLate;
    if msgs in SentInTurn(env, s, start, retries, world(turn)) {
      SentInTurnIsAnswered(env, s, start, retries, world(turn), msgs);
    } else {
      var (t, _, more) := Turn(env, s, start, retries, world(turn));
      GoesOnCompiled(env, s, start, retries, world(turn));
      PreparedIsAnswered(env, s, start, world(turn).rendered);
      TurnAnswersAll(env, s, start, retries, world(turn));
      SentIsAnswered(env, t, start, retries, world, turn + 1, maxTurns, msgs);
    }
  }

  lemma GoesOnCompiled(env: Setting, s: Snapshot, start: nat, retries: bool, input: TurnInput)
    requires Turn(env, s, start, retries, input).2
    ensures input.Compiled?
  {
  }

  lemma SentInTurnIsAnswered(env: Setting, s: Snapshot, start: nat, retries: bool, input: TurnInput, msgs: seq<Message>)
    requires AllAnswered(s.messages) && msgs in SentInTurn(env, s, start, retries, input)
    ensures AllAnswered(msgs)
  {
    hide AllAnswered, Prepare;
    var prepared := Prepare(env, s, start, input.rendered);
    Repeated(prepared.messages, FinalAttempt(env, prepared, input.attempts, Allowed(retries), 0) + 1);
    PreparedIsAnswered(env, s, start, input.rendered);
  }
}

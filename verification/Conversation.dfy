/** Conversation messages, and what it means for tool results to be paired with the calls they
    answer: every tool message stands in a run that directly follows an assistant message with
    that call. */
module Conversation {
  import opened Text

  datatype Role = System | User | Assistant | Tool

  datatype ToolCall = ToolCall(id: string, name: string, arguments: string)

  datatype Message = Message(
    role: Role, content: string, reasoning: Option<string>,
    toolCalls: Option<seq<ToolCall>>, toolCallId: Option<string>, name: Option<string>)

  function Plain(role: Role, content: string): Message {
    Message(role, content, None, None, None, None)
  }

  predicate IsCaller(m: Message) {
    m.role == Assistant && m.toolCalls.Some?
  }

  // The messages end with an assistant's calls and results for them.
  predicate FollowsCalls(msgs: seq<Message>) {
    msgs != [] &&
    var last := msgs[|msgs| - 1];
    if last.role == Tool then FollowsCalls(msgs[..|msgs| - 1]) else IsCaller(last)
  }

  // The calls a tool message after these messages may answer.
  function CallsInScope(msgs: seq<Message>): seq<ToolCall> {
    if msgs == [] then []
    else
      var last := msgs[|msgs| - 1];
      if last.role == Tool then CallsInScope(msgs[..|msgs| - 1])
      else if IsCaller(last) then last.toolCalls.value
      else []
  }

  predicate Answers(m: Message, calls: seq<ToolCall>) {
    exists c | c in calls :: m.toolCallId == Some(c.id) && m.name == Some(c.name)
  }

  predicate WellPaired(msgs: seq<Message>) {
    if msgs == [] then true
    else
      var before, last := msgs[..|msgs| - 1], msgs[|msgs| - 1];
      WellPaired(before) && (last.role == Tool ==> Answers(last, CallsInScope(before)))
  }

  lemma Snoc(msgs: seq<Message>, m: Message)
    ensures WellPaired(msgs + [m]) <==> WellPaired(msgs) && (m.role == Tool ==> Answers(m, CallsInScope(msgs)))
    ensures CallsInScope(msgs + [m])
         == if m.role == Tool then CallsInScope(msgs) else if IsCaller(m) then m.toolCalls.value else []
    ensures FollowsCalls(msgs + [m]) <==> if m.role == Tool then FollowsCalls(msgs) else IsCaller(m)
  {
    assert (msgs + [m])[..|msgs|] == msgs;
  }

  /** The same, spelled out: a well-paired conversation has, before every tool message and with
      only tool messages in between, an assistant whose calls contain its id under its name. */
  lemma {:induction false} WellPairedMeans(msgs: seq<Message>, i: nat)
    requires WellPaired(msgs) && i < |msgs| && msgs[i].role == Tool
    ensures exists j | 0 <= j < i :: IsCaller(msgs[j]) && (forall k | j < k < i :: msgs[k].role == Tool)
              && exists c | c in msgs[j].toolCalls.value :: msgs[i].toolCallId == Some(c.id)
                  && msgs[i].name == Some(c.name)
  {
    var n := |msgs| - 1;
    if i < n {
      WellPairedMeans(msgs[..n], i);
      var j :| 0 <= j < i && IsCaller(msgs[..n][j]) && (forall k | j < k < i :: msgs[..n][k].role == Tool)
        && exists c | c in msgs[..n][j].toolCalls.value :: msgs[..n][i].toolCallId == Some(c.id)
            && msgs[..n][i].name == Some(c.name);
      assert forall k | j < k < i :: msgs[k] == msgs[..n][k];
      assert msgs[j] == msgs[..n][j] && msgs[i] == msgs[..n][i];
    } else {
      var c :| c in CallsInScope(msgs[..n]) && msgs[n].toolCallId == Some(c.id) && msgs[n].name == Some(c.name);
      var j := ScopeOrigin(msgs[..n], c);
      assert forall k | j < k < n :: msgs[k] == msgs[..n][k];
      assert msgs[j] == msgs[..n][j];
    }
  }

  // The assistant message a call in scope comes from.
  lemma {:induction false} ScopeOrigin(msgs: seq<Message>, c: ToolCall) returns (j: nat)
    requires c in CallsInScope(msgs)
    ensures j < |msgs| && IsCaller(msgs[j]) && c in msgs[j].toolCalls.value
    ensures forall k | j < k < |msgs| :: msgs[k].role == Tool
  {
    var n := |msgs| - 1;
    if msgs[n].role == Tool {
      j := ScopeOrigin(msgs[..n], c);
      assert forall k | j < k < n :: msgs[k] == msgs[..n][k];
      assert msgs[j] == msgs[..n][j];
    } else {
      j := n;
    }
  }

  // ---- taking conversations apart and together ----

  // A prefix does not matter to what comes after a message that is not a tool result.
  lemma {:induction false} ScopeAfter(a: seq<Message>, b: seq<Message>)
    requires b != [] && b[0].role != Tool
    ensures CallsInScope(a + b) == CallsInScope(b)
    ensures FollowsCalls(a + b) == FollowsCalls(b)
    decreases |b|
  {
    var n := |b| - 1;
    assert (a + b)[..|a| + n] == a + b[..n];
    if b[n].role == Tool {
      ScopeAfter(a, b[..n]);
    }
  }

  // A well-paired part may be put after anything well-paired.
  lemma {:induction false} Append(a: seq<Message>, b: seq<Message>)
    requires WellPaired(a) && WellPaired(b)
    ensures WellPaired(a + b)
    decreases |b|
  {
    if b == [] {
      assert a + b == a;
    } else {
      var n := |b| - 1;
      Append(a, b[..n]);
      assert (a + b)[..|a| + n] == a + b[..n];
      if b[n].role == Tool {
        FirstIsNoTool(b[..n]);
        ScopeAfter(a, b[..n]);
      }
    }
  }

  lemma {:induction false} FirstIsNoTool(b: seq<Message>)
    requires WellPaired(b)
    ensures CallsInScope(b) != [] ==> b != []
    ensures b != [] ==> b[0].role != Tool
  {
    if |b| > 1 {
      FirstIsNoTool(b[..|b| - 1]);
    }
  }

  // A part that starts with something other than a tool result stands on its own.
  lemma {:induction false} Suffix(a: seq<Message>, b: seq<Message>)
    requires WellPaired(a + b)
    requires b == [] || b[0].role != Tool
    ensures WellPaired(b)
    decreases |b|
  {
    if b != [] {
      var n := |b| - 1;
      assert (a + b)[..|a| + n] == a + b[..n];
      Suffix(a, b[..n]);
      if b[n].role == Tool {
        ScopeAfter(a, b[..n]);
      }
    }
  }

  lemma {:induction false} Prefix(msgs: seq<Message>, n: nat)
    requires WellPaired(msgs) && n <= |msgs|
    ensures WellPaired(msgs[..n])
  {
    if n < |msgs| {
      var before := msgs[..|msgs| - 1];
      Prefix(before, n);
      assert before[..n] == msgs[..n];
    } else {
      assert msgs[..n] == msgs;
    }
  }

  // In a well-paired conversation a tool result always follows calls.
  lemma ToolFollowsCalls(msgs: seq<Message>, i: nat)
    requires WellPaired(msgs) && i < |msgs| && msgs[i].role == Tool
    ensures FollowsCalls(msgs[..i])
  {
    Prefix(msgs, i + 1);
    assert msgs[..i + 1][..i] == msgs[..i];
    ScopeFollowsCalls(msgs[..i]);
  }

  lemma {:induction false} ScopeFollowsCalls(msgs: seq<Message>)
    ensures CallsInScope(msgs) != [] ==> FollowsCalls(msgs)
  {
    if msgs != [] && msgs[|msgs| - 1].role == Tool {
      ScopeFollowsCalls(msgs[..|msgs| - 1]);
    }
  }

  // ---- system messages ----

  function OnlySystem(msgs: seq<Message>): seq<Message> {
    if msgs == [] then []
    else
      var last := msgs[|msgs| - 1];
      OnlySystem(msgs[..|msgs| - 1]) + if last.role == System then [last] else []
  }

  function WithoutSystem(msgs: seq<Message>): seq<Message> {
    if msgs == [] then []
    else
      var last := msgs[|msgs| - 1];
      WithoutSystem(msgs[..|msgs| - 1]) + if last.role != System then [last] else []
  }

  lemma {:induction false} OnlySystemIsSystem(msgs: seq<Message>)
    ensures forall m | m in OnlySystem(msgs) :: m.role == System
    ensures forall m | m in WithoutSystem(msgs) :: m.role != System
    ensures |OnlySystem(msgs)| + |WithoutSystem(msgs)| == |msgs|
  {
    if msgs != [] {
      var n := |msgs| - 1;
      OnlySystemIsSystem(msgs[..n]);
      assert msgs == msgs[..n] + [msgs[n]];
    }
  }

  lemma {:induction false} SystemAlone(system: seq<Message>)
    requires forall m | m in system :: m.role == System
    ensures OnlySystem(system) == system && WithoutSystem(system) == []
  {
    if system != [] {
      var n := |system| - 1;
      assert system[n] in system;
      SystemAlone(system[..n]);
    }
  }

  lemma SystemSnoc(msgs: seq<Message>, m: Message)
    ensures OnlySystem(msgs + [m]) == if m.role == System then OnlySystem(msgs) + [m] else OnlySystem(msgs)
    ensures WithoutSystem(msgs + [m]) == if m.role == System then WithoutSystem(msgs) else WithoutSystem(msgs) + [m]
  {
    assert (msgs + [m])[..|msgs|] == msgs;
    assert OnlySystem(msgs) + [] == OnlySystem(msgs) && WithoutSystem(msgs) + [] == WithoutSystem(msgs);
  }

  // System messages followed by others are taken apart again.
  lemma {:induction false} SplitBack(system: seq<Message>, others: seq<Message>)
    requires forall m | m in system :: m.role == System
    requires forall m | m in others :: m.role != System
    ensures OnlySystem(system + others) == system && WithoutSystem(system + others) == others
    decreases |others|
  {
    if others == [] {
      assert system + others == system;
      SystemAlone(system);
    } else {
      var n := |others| - 1;
      var before, last := others[..n], others[n];
      assert last in others;
      calc {
        OnlySystem(system + others);
        { assert system + others == system + before + [last]; }
        OnlySystem(system + before + [last]);
        { SystemSnoc(system + before, last); }
        OnlySystem(system + before);
        { SplitBack(system, before); }
        system;
      }
      calc {
        WithoutSystem(system + others);
        { assert system + others == system + before + [last]; }
        WithoutSystem(system + before + [last]);
        { SystemSnoc(system + before, last); }
        WithoutSystem(system + before) + [last];
        { SplitBack(system, before); }
        before + [last];
        others;
      }
    }
  }

  lemma {:induction false} SystemIsPaired(msgs: seq<Message>)
    requires forall m | m in msgs :: m.role == System
    ensures WellPaired(msgs)
  {
    if msgs != [] {
      assert msgs[|msgs| - 1] in msgs;
      SystemIsPaired(msgs[..|msgs| - 1]);
    }
  }

  /** Dropping system messages keeps results paired. */
  lemma {:induction false} WithoutSystemIsPaired(msgs: seq<Message>)
    requires WellPaired(msgs)
    ensures WellPaired(WithoutSystem(msgs))
    ensures CallsInScope(msgs) == [] || CallsInScope(msgs) == CallsInScope(WithoutSystem(msgs))
  {
    if msgs != [] {
      var n := |msgs| - 1;
      WithoutSystemIsPaired(msgs[..n]);
      if msgs[n].role != System {
        Snoc(WithoutSystem(msgs[..n]), msgs[n]);
      } else {
        assert WithoutSystem(msgs[..n]) + [] == WithoutSystem(msgs[..n]);
      }
    }
  }
}

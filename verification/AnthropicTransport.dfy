/** Translating a conversation to the Anthropic wire shape: system messages move to a field of
    their own, results of consecutive tool messages are merged into one user message. */
module AnthropicTransport {
  import opened Text
  import opened Conversation

  // ---- the wire shape ----

  // `input` is the JSON of the arguments, `{}` when they do not parse.
  datatype Block =
    | TextBlock(text: string)
    | ToolUse(id: string, name: string, input: string)
    | ToolResultBlock(toolUseId: string, content: string)

  datatype WireRole = UserRole | AssistantRole

  datatype WireMessage = WireMessage(role: WireRole, content: seq<Block>)

  datatype Normalized = Normalized(system: Option<string>, messages: seq<WireMessage>)

  // The JSON the wire carries for a call's argument text.
  type ArgumentReader = string -> string

  // ---- translation of one message ----

  function ToolUses(read: ArgumentReader, calls: seq<ToolCall>): seq<Block> {
    if calls == [] then []
    else
      var n := |calls| - 1;
      ToolUses(read, calls[..n]) + [ToolUse(calls[n].id, calls[n].name, read(calls[n].arguments))]
  }

  function AssistantBlocks(read: ArgumentReader, m: Message): seq<Block> {
    var text := if m.content != "" then [TextBlock(m.content)] else [];
    var uses := if m.toolCalls.Some? then ToolUses(read, m.toolCalls.value) else [];
    if text + uses == [] then [TextBlock("(empty)")] else text + uses
  }

  function ResultBlock(m: Message): Block {
    ToolResultBlock(if m.toolCallId.Some? then m.toolCallId.value else "",
                    if m.content == "" then "(no output)" else m.content)
  }

  function UserBlocks(m: Message): seq<Block> {
    [TextBlock(if m.content == "" then "(empty message)" else m.content)]
  }

  // The blocks a message contributes, in order.
  function Blocks(read: ArgumentReader, m: Message): seq<Block> {
    match m.role
    case System => []
    case User => UserBlocks(m)
    case Assistant => AssistantBlocks(read, m)
    case Tool => [ResultBlock(m)]
  }

  // A user message that holds tool results.
  predicate HoldsResults(w: WireMessage) {
    w.role == UserRole && w.content != [] && w.content[0].ToolResultBlock?
  }

  // ---- specification ----

  function AddSystem(system: Option<string>, content: string): Option<string> {
    if system.Some? then Some(system.value + "\n\n" + content) else Some(content)
  }

  function AddMessage(read: ArgumentReader, out: seq<WireMessage>, m: Message): seq<WireMessage> {
    match m.role
    case System => out
    case User => out + [WireMessage(UserRole, UserBlocks(m))]
    case Assistant => out + [WireMessage(AssistantRole, AssistantBlocks(read, m))]
    case Tool =>
      if out != [] && HoldsResults(out[|out| - 1])
      then out[..|out| - 1] + [out[|out| - 1].(content := out[|out| - 1].content + [ResultBlock(m)])]
      else out + [WireMessage(UserRole, [ResultBlock(m)])]
  }

  function Normalize(read: ArgumentReader, msgs: seq<Message>): Normalized {
    if msgs == [] then Normalized(None, [])
    else
      var last := msgs[|msgs| - 1];
      var before := Normalize(read, msgs[..|msgs| - 1]);
      Normalized(if last.role == System then AddSystem(before.system, last.content) else before.system,
                 AddMessage(read, before.messages, last))
  }

  method NormalizeMessages(read: ArgumentReader, messages: seq<Message>) returns (r: Normalized)
    ensures r == Normalize(read, messages)
  {
    var system: Option<string> := None;
    var result: seq<WireMessage> := [];
    for i := 0 to |messages|
      invariant Normalized(system, result) == Normalize(read, messages[..i])
    {
      var m := messages[i];
      assert messages[..i + 1][..i] == messages[..i];
      match m.role {
        case System =>
          if system.Some? {
            system := Some(system.value + "\n\n" + m.content);
          } else {
            system := Some(m.content);
          }
        case User =>
          result := result + [WireMessage(UserRole, UserBlocks(m))];
        case Assistant =>
          var blocks := ReadAssistant(read, m);
          result := result + [WireMessage(AssistantRole, blocks)];
        case Tool =>
          result := AppendResult(read, result, m);
      }
    }
    assert messages[..|messages|] == messages;
    r := Normalized(system, result);
  }

  // Consecutive results go into one user message.
  method AppendResult(read: ArgumentReader, result: seq<WireMessage>, m: Message) returns (next: seq<WireMessage>)
    requires m.role == Tool
    ensures next == AddMessage(read, result, m)
  {
    var toolResult := ResultBlock(m);
    next := result;
    if next != [] {
      var last := next[|next| - 1];
      if last.role == UserRole && last.content != [] && last.content[0].ToolResultBlock? {
        next := next[|next| - 1 := last.(content := last.content + [toolResult])];
        return;
      }
    }
    next := next + [WireMessage(UserRole, [toolResult])];
  }

  method ReadAssistant(read: ArgumentReader, m: Message) returns (blocks: seq<Block>)
    ensures blocks == AssistantBlocks(read, m)
  {
    hide ToolUses;
    NoUses(read);
    blocks := if m.content != "" then [TextBlock(m.content)] else [];
    if m.toolCalls.Some? {
      var calls := m.toolCalls.value;
      ghost var text := blocks;
      for i := 0 to |calls|
        invariant blocks == text + ToolUses(read, calls[..i])
      {
        UsesSnoc(read, calls, i);
        ghost var use := ToolUse(calls[i].id, calls[i].name, read(calls[i].arguments));
        AppendAssociates(text, ToolUses(read, calls[..i]), [use]);
        blocks := blocks + [ToolUse(calls[i].id, calls[i].name, read(calls[i].arguments))];
        assert blocks == text + ToolUses(read, calls[..i + 1]);
      }
      assert calls[..|calls|] == calls;
    }
    if blocks == [] {
      blocks := [TextBlock("(empty)")];
    }
  }

  lemma UsesSnoc(read: ArgumentReader, calls: seq<ToolCall>, i: nat)
    requires i < |calls|
    ensures ToolUses(read, calls[..i + 1])
         == ToolUses(read, calls[..i]) + [ToolUse(calls[i].id, calls[i].name, read(calls[i].arguments))]
  {
    assert calls[..i + 1][..i] == calls[..i];
  }

  // ---- nothing is lost or reordered ----

  // A block together with the role that says it.
  datatype Said = Said(role: WireRole, block: Block)

  function SaidBy(role: WireRole, blocks: seq<Block>): seq<Said> {
    seq(|blocks|, i requires 0 <= i < |blocks| => Said(role, blocks[i]))
  }

  function Flatten(out: seq<WireMessage>): seq<Said> {
    if out == [] then [] else Flatten(out[..|out| - 1]) + SaidBy(out[|out| - 1].role, out[|out| - 1].content)
  }

  function RoleOf(m: Message): WireRole {
    if m.role == Assistant then AssistantRole else UserRole
  }

  function AllBlocks(read: ArgumentReader, msgs: seq<Message>): seq<Said> {
    if msgs == [] then []
    else
      var m := msgs[|msgs| - 1];
      AllBlocks(read, msgs[..|msgs| - 1]) + SaidBy(RoleOf(m), Blocks(read, m))
  }

  lemma FlattenSnoc(out: seq<WireMessage>, w: WireMessage)
    ensures Flatten(out + [w]) == Flatten(out) + SaidBy(w.role, w.content)
  {
    assert (out + [w])[..|out|] == out;
  }

  lemma SaidByAppend(role: WireRole, a: seq<Block>, b: seq<Block>)
    ensures SaidBy(role, a + b) == SaidBy(role, a) + SaidBy(role, b)
  {
  }

  // A message contributes its blocks at the end, merged or not.
  lemma AddMessageFlattens(read: ArgumentReader, out: seq<WireMessage>, m: Message)
    ensures Flatten(AddMessage(read, out, m)) == Flatten(out) + SaidBy(RoleOf(m), Blocks(read, m))
  {
    if m.role == Tool && out != [] && HoldsResults(out[|out| - 1]) {
      var n := |out| - 1;
      var merged := out[n].(content := out[n].content + [ResultBlock(m)]);
      var result := SaidBy(UserRole, [ResultBlock(m)]);
      calc {
        Flatten(AddMessage(read, out, m));
        Flatten(out[..n] + [merged]);
        { FlattenSnoc(out[..n], merged); }
        Flatten(out[..n]) + SaidBy(UserRole, out[n].content + [ResultBlock(m)]);
        { SaidByAppend(UserRole, out[n].content, [ResultBlock(m)]); }
        Flatten(out[..n]) + (SaidBy(UserRole, out[n].content) + result);
        { AppendAssociates(Flatten(out[..n]), SaidBy(UserRole, out[n].content), result); }
        Flatten(out) + result;
      }
    } else if m.role == System {
      assert Flatten(out) + [] == Flatten(out);
    } else {
      FlattenSnoc(out, WireMessage(RoleOf(m), Blocks(read, m)));
    }
  }

  /** The output's blocks are the translations of the messages, one after the other and each
      under its message's role. */
  lemma {:induction false} BlocksArePreserved(read: ArgumentReader, msgs: seq<Message>)
    ensures Flatten(Normalize(read, msgs).messages) == AllBlocks(read, msgs)
  {
    if msgs != [] {
      var n := |msgs| - 1;
      BlocksArePreserved(read, msgs[..n]);
      AddMessageFlattens(read, Normalize(read, msgs[..n]).messages, msgs[n]);
    }
  }

  /** System messages are joined, in order, and nothing else goes into that field. */
  lemma {:induction false} SystemIsJoined(read: ArgumentReader, msgs: seq<Message>)
    ensures Normalize(read, msgs).system == Normalize(read, OnlySystem(msgs)).system
    ensures Normalize(read, msgs).messages == Normalize(read, WithoutSystem(msgs)).messages
  {
    if msgs != [] {
      var n := |msgs| - 1;
      SystemIsJoined(read, msgs[..n]);
      var last := msgs[n];
      if last.role == System {
        assert (OnlySystem(msgs[..n]) + [last])[..|OnlySystem(msgs[..n])|] == OnlySystem(msgs[..n]);
        assert WithoutSystem(msgs[..n]) + [] == WithoutSystem(msgs[..n]);
      } else {
        assert (WithoutSystem(msgs[..n]) + [last])[..|WithoutSystem(msgs[..n])|] == WithoutSystem(msgs[..n]);
        assert OnlySystem(msgs[..n]) + [] == OnlySystem(msgs[..n]);
      }
    }
  }

  // ---- tool results on the wire ----

  ghost predicate OffersUse(w: WireMessage, id: string) {
    w.role == AssistantRole && exists b | b in w.content :: b.ToolUse? && b.id == id
  }

  // Every result in a message answers a tool use of the message right before it, and messages
  // with results never stand side by side.
  ghost predicate WirePaired(out: seq<WireMessage>) {
    forall i | 0 <= i < |out| && HoldsResults(out[i]) :: i > 0 && ResultsAnswer(out[i], out[i - 1])
  }

  ghost predicate NoAdjacentResults(out: seq<WireMessage>) {
    forall i | 0 < i < |out| :: !(HoldsResults(out[i]) && HoldsResults(out[i - 1]))
  }

  /** Two messages with results are never adjacent, whatever the conversation. */
  lemma {:induction false} ResultsAreMerged(read: ArgumentReader, msgs: seq<Message>)
    ensures NoAdjacentResults(Normalize(read, msgs).messages)
  {
    if msgs != [] {
      var n := |msgs| - 1;
      ResultsAreMerged(read, msgs[..n]);
      var out := Normalize(read, msgs[..n]).messages;
      var next := AddMessage(read, out, msgs[n]);
      forall i | 0 < i < |next|
        ensures !(HoldsResults(next[i]) && HoldsResults(next[i - 1]))
      {
        if i < |out| {
          assert HoldsResults(next[i]) == HoldsResults(out[i]) && HoldsResults(next[i - 1]) == HoldsResults(out[i - 1]);
        }
      }
    }
  }

  lemma {:induction false} UsesAreUses(read: ArgumentReader, calls: seq<ToolCall>)
    ensures forall b | b in ToolUses(read, calls) :: b.ToolUse?
    ensures forall c | c in calls :: exists b | b in ToolUses(read, calls) :: b.ToolUse? && b.id == c.id
  {
    if calls != [] {
      var n := |calls| - 1;
      UsesAreUses(read, calls[..n]);
      assert calls == calls[..n] + [calls[n]];
    }
  }

  // The output ends with an assistant message offering all calls in scope, possibly followed by
  // one message of results.
  ghost predicate EndsOpen(out: seq<WireMessage>, calls: seq<ToolCall>) {
    calls == [] ||
    (out != [] &&
     var last := out[|out| - 1];
     if HoldsResults(last) then |out| > 1 && forall c | c in calls :: OffersUse(out[|out| - 2], c.id)
     else forall c | c in calls :: OffersUse(last, c.id))
  }

  // What a message with results needs from the one before it.
  ghost predicate ResultsAnswer(w: WireMessage, before: WireMessage) {
    !HoldsResults(before) && forall b | b in w.content :: b.ToolResultBlock? && OffersUse(before, b.toolUseId)
  }

  lemma AppendPaired(out: seq<WireMessage>, w: WireMessage)
    requires WirePaired(out)
    requires HoldsResults(w) ==> out != [] && ResultsAnswer(w, out[|out| - 1])
    ensures WirePaired(out + [w])
  {
    var next := out + [w];
    forall i | 0 <= i < |next| && HoldsResults(next[i])
      ensures i > 0 && ResultsAnswer(next[i], next[i - 1])
    {
      if i < |out| { assert HoldsResults(out[i]); }
    }
  }

  lemma PairedPrefix(out: seq<WireMessage>, n: nat)
    requires WirePaired(out) && n <= |out|
    ensures WirePaired(out[..n])
  {
    forall i | 0 <= i < n && HoldsResults(out[..n][i])
      ensures i > 0 && ResultsAnswer(out[..n][i], out[..n][i - 1])
    {
      assert HoldsResults(out[i]);
    }
  }

  // A result merged into the last message, and one that starts a message of its own.
  lemma MergeResult(out: seq<WireMessage>, block: Block)
    requires WirePaired(out) && out != [] && HoldsResults(out[|out| - 1])
    requires block.ToolResultBlock? && |out| > 1 && OffersUse(out[|out| - 2], block.toolUseId)
    ensures var last := out[|out| - 1];
            WirePaired(out[..|out| - 1] + [last.(content := last.content + [block])])
  {
    var n := |out| - 1;
    assert ResultsAnswer(out[n], out[n - 1]);
    PairedPrefix(out, n);
    AppendPaired(out[..n], out[n].(content := out[n].content + [block]));
  }

  lemma AddResult(read: ArgumentReader, out: seq<WireMessage>, m: Message, calls: seq<ToolCall>)
    requires WirePaired(out) && EndsOpen(out, calls) && m.role == Tool && Answers(m, calls)
    ensures WirePaired(AddMessage(read, out, m)) && EndsOpen(AddMessage(read, out, m), calls)
  {
    var c :| c in calls && m.toolCallId == Some(c.id) && m.name == Some(c.name);
    var n := |out| - 1;
    if HoldsResults(out[n]) {
      assert OffersUse(out[n - 1], c.id);
      MergeResult(out, ResultBlock(m));
    } else {
      assert OffersUse(out[n], c.id);
      AppendPaired(out, WireMessage(UserRole, [ResultBlock(m)]));
    }
  }

  lemma AssistantOffersItsCalls(read: ArgumentReader, m: Message)
    requires IsCaller(m)
    ensures forall c | c in m.toolCalls.value :: OffersUse(WireMessage(AssistantRole, AssistantBlocks(read, m)), c.id)
  {
    var w := WireMessage(AssistantRole, AssistantBlocks(read, m));
    var uses := ToolUses(read, m.toolCalls.value);
    UsesAreUses(read, m.toolCalls.value);
    forall c | c in m.toolCalls.value
      ensures OffersUse(w, c.id)
    {
      var b :| b in uses && b.ToolUse? && b.id == c.id;
      assert b in w.content;
    }
  }

  lemma AddOther(read: ArgumentReader, out: seq<WireMessage>, m: Message)
    requires WirePaired(out) && (m.role == User || m.role == Assistant)
    ensures WirePaired(AddMessage(read, out, m))
    ensures EndsOpen(AddMessage(read, out, m), if IsCaller(m) then m.toolCalls.value else [])
  {
    var next := AddMessage(read, out, m);
    AppendPaired(out, next[|out|]);
    if IsCaller(m) {
      AssistantOffersItsCalls(read, m);
    }
  }

  lemma {:induction false} PairingOnTheWay(read: ArgumentReader, msgs: seq<Message>)
    requires WellPaired(msgs)
    ensures WirePaired(Normalize(read, msgs).messages)
    ensures EndsOpen(Normalize(read, msgs).messages, CallsInScope(msgs))
  {
    if msgs != [] {
      var n := |msgs| - 1;
      PairingOnTheWay(read, msgs[..n]);
      var out := Normalize(read, msgs[..n]).messages;
      match msgs[n].role {
        case System =>
        case Tool => AddResult(read, out, msgs[n], CallsInScope(msgs[..n]));
        case _ => AddOther(read, out, msgs[n]);
      }
    }
  }

  /** From a well-paired conversation every tool result on the wire answers a tool use of the
      message immediately before it. */
  lemma PairingSurvivesTranslation(read: ArgumentReader, msgs: seq<Message>)
    requires WellPaired(msgs)
    ensures WirePaired(Normalize(read, msgs).messages)
  {
    PairingOnTheWay(read, msgs);
  }

  // ---- what the blocks say ----

  // The text of a message, or what stands for an empty one.
  function TextOr(content: string, empty: string): string {
    if content == "" then empty else content
  }

  /** No text is changed. A user message is its text and a result its content under the id of the
      call; only messages that would be empty get a text that says so. */
  lemma BlocksSay(read: ArgumentReader, m: Message)
    ensures m.role == User ==> Blocks(read, m) == [TextBlock(TextOr(m.content, "(empty message)"))]
    ensures m.role == Tool ==>
              Blocks(read, m)
              == [ToolResultBlock(if m.toolCallId.Some? then m.toolCallId.value else "", TextOr(m.content, "(no output)"))]
    ensures m.role == System ==> Blocks(read, m) == []
  {
  }

  // The block of a call: its id, its name and its arguments.
  function CallBlock(read: ArgumentReader, c: ToolCall): Block {
    ToolUse(c.id, c.name, read(c.arguments))
  }

  /** An assistant's blocks are its text, if any, and then its calls in order; without either there
      is a text that says so. */
  lemma AssistantSays(read: ArgumentReader, m: Message)
    requires m.role == Assistant
    ensures var calls := if m.toolCalls.Some? then m.toolCalls.value else [];
            if m.content == "" && calls == [] then Blocks(read, m) == [TextBlock("(empty)")]
            else Blocks(read, m)
                 == (if m.content == "" then [] else [TextBlock(m.content)])
                    + seq(|calls|, i requires 0 <= i < |calls| => CallBlock(read, calls[i]))
  {
    hide ToolUses;
    var calls := if m.toolCalls.Some? then m.toolCalls.value else [];
    UsesAreCalls(read, calls);
    assert ToolUses(read, calls) == seq(|calls|, i requires 0 <= i < |calls| => CallBlock(read, calls[i]));
    NoUses(read);
  }

  lemma NoUses(read: ArgumentReader)
    ensures ToolUses(read, []) == []
  {
  }

  lemma {:induction false} UsesAreCalls(read: ArgumentReader, calls: seq<ToolCall>)
    ensures |ToolUses(read, calls)| == |calls|
    ensures forall i | 0 <= i < |calls| ::
              ToolUses(read, calls)[i] == CallBlock(read, calls[i])
  {
    if calls != [] {
      UsesAreCalls(read, calls[..|calls| - 1]);
    }
  }

  // Texts with an empty line between them.
  function Paragraphs(msgs: seq<Message>): string {
    if msgs == [] then ""
    else if |msgs| == 1 then msgs[0].content
    else Paragraphs(msgs[..|msgs| - 1]) + "\n\n" + msgs[|msgs| - 1].content
  }

  /** The system field is all system texts with an empty line between them; without any it is
      missing. */
  lemma {:induction false} SystemIsParagraphs(read: ArgumentReader, msgs: seq<Message>)
    ensures Normalize(read, msgs).system
         == if OnlySystem(msgs) == [] then None else Some(Paragraphs(OnlySystem(msgs)))
  {
    if msgs != [] {
      var n := |msgs| - 1;
      SystemIsParagraphs(read, msgs[..n]);
      var before := OnlySystem(msgs[..n]);
      if msgs[n].role == System {
        assert (before + [msgs[n]])[..|before|] == before;
      } else {
        assert before + [] == before;
      }
    }
  }
}

/** The provider-independent events of a response stream, and what it means for the tool-call
    events of a stream to be properly bracketed. */
module StreamEvents {
  import opened Text

  datatype TokenUsage = TokenUsage(promptTokens: nat, completionTokens: nat, totalTokens: nat)

  datatype StreamEvent =
    | Token(content: string)
    | Reasoning(thought: string)
    | ToolCallStart(id: string, name: string)
    | ToolCallDelta(id: string, fragment: string)
    | ToolCallEnd(id: string)
    | Done(finishReason: string, usage: Option<TokenUsage>)
    | Error(message: string)

  // ---- fields of decoded JSON ----

  const U32_BOUND: nat := 0x1_0000_0000

  // `as_u64().unwrap_or(0) as u32`
  function AsU32(n: Option<nat>): nat {
    if n.Some? then n.value % U32_BOUND else 0
  }

  function OrElse(s: Option<string>, default: string): string {
    if s.Some? then s.value else default
  }

  // The text of a field that is there and not empty.
  function NonEmpty(s: Option<string>): Option<string> {
    if s == Some("") then None else s
  }

  datatype RawUsage = RawUsage(prompt: Option<nat>, completion: Option<nat>, total: Option<nat>)

  function ToUsage(raw: RawUsage): TokenUsage {
    TokenUsage(AsU32(raw.prompt), AsU32(raw.completion), AsU32(raw.total))
  }

  // ---- bracketing of tool calls ----

  predicate About(event: StreamEvent, id: string) {
    match event
    case ToolCallStart(i, _) => i == id
    case ToolCallDelta(i, _) => i == id
    case ToolCallEnd(i) => i == id
    case _ => false
  }

  // An event that continues or ends a call needs that call to be open.
  predicate Admissible(open: multiset<string>, event: StreamEvent) {
    (event.ToolCallDelta? || event.ToolCallEnd?) ==> event.id in open
  }

  function Effect(open: multiset<string>, event: StreamEvent): multiset<string> {
    match event
    case ToolCallStart(id, _) => open + multiset{id}
    case ToolCallEnd(id) => open - multiset{id}
    case _ => open
  }

  // The calls open after the events, counted; None when an event names a call that is not open.
  function After(open: multiset<string>, events: seq<StreamEvent>): Option<multiset<string>>
    decreases |events|
  {
    if events == [] then Some(open)
    else if !Admissible(open, events[0]) then None
    else After(Effect(open, events[0]), events[1..])
  }

  lemma {:induction false} AfterAppend(open: multiset<string>, first: seq<StreamEvent>, second: seq<StreamEvent>)
    ensures After(open, first + second)
            == if After(open, first) == None then None else After(After(open, first).value, second)
    decreases |first|
  {
    if first == [] {
      assert first + second == second;
    } else {
      assert (first + second)[1..] == first[1..] + second;
      if Admissible(open, first[0]) {
        AfterAppend(Effect(open, first[0]), first[1..], second);
      }
    }
  }

  lemma AfterCons(open: multiset<string>, event: StreamEvent, rest: seq<StreamEvent>)
    requires Admissible(open, event)
    ensures After(open, [event] + rest) == After(Effect(open, event), rest)
  {
    assert ([event] + rest)[1..] == rest;
  }

  // Ending a list of calls one after the other.
  function Ends(ids: seq<string>): seq<StreamEvent> {
    if ids == [] then [] else [ToolCallEnd(ids[0])] + Ends(ids[1..])
  }

  function Counted(ids: seq<string>): multiset<string> {
    if ids == [] then multiset{} else multiset{ids[0]} + Counted(ids[1..])
  }

  lemma {:induction false} AfterEnds(ids: seq<string>, open: multiset<string>, rest: multiset<string>)
    requires open == Counted(ids) + rest
    ensures After(open, Ends(ids)) == Some(rest)
    decreases |ids|
  {
    if ids == [] {
      assert open == rest;
    } else {
      var id, later := ids[0], ids[1..];
      assert open - multiset{id} == Counted(later) + rest;
      calc {
        After(open, Ends(ids));
        After(open, [ToolCallEnd(id)] + Ends(later));
        { AfterCons(open, ToolCallEnd(id), Ends(later)); }
        After(open - multiset{id}, Ends(later));
        { AfterEnds(later, open - multiset{id}, rest); }
        Some(rest);
      }
    }
  }

  lemma {:induction false} AfterSilent(open: multiset<string>, events: seq<StreamEvent>)
    requires forall e | e in events :: e.Token? || e.Reasoning? || e.Done? || e.Error?
    ensures After(open, events) == Some(open)
  {
    if events != [] {
      assert events[0] in events;
      AfterSilent(open, events[1..]);
    }
  }

  // ---- the life of one call ----

  ghost predicate FreshStarts(events: seq<StreamEvent>) {
    forall i, j | 0 <= i < j < |events| ::
      events[i].ToolCallStart? && events[j].ToolCallStart? ==> events[i].id != events[j].id
  }

  predicate Mentions(events: seq<StreamEvent>, id: string) {
    exists e | e in events :: About(e, id)
  }

  predicate Starts(events: seq<StreamEvent>, id: string) {
    exists e | e in events :: e.ToolCallStart? && e.id == id
  }

  // What is known about one id after a bracketed stream with fresh starts.
  ghost predicate KnownId(events: seq<StreamEvent>, id: string, open: multiset<string>) {
    && open[id] <= 1
    && (Mentions(events, id) ==> Starts(events, id))
    && (id in open ==> Starts(events, id) && ToolCallEnd(id) !in events)
  }

  lemma KnownIdSnoc(events: seq<StreamEvent>, last: StreamEvent, id: string, open: multiset<string>)
    requires KnownId(events, id, open) && Admissible(open, last)
    requires last.ToolCallStart? && last.id == id ==> !Starts(events, id)
    ensures KnownId(events + [last], id, Effect(open, last))
  {
    var longer := events + [last];
    assert last in longer;
    assert forall e | e in longer :: e in events || e == last;
    assert Starts(events, id) ==> Starts(longer, id);
  }

  lemma {:induction false} StateOfId(events: seq<StreamEvent>, id: string)
    requires FreshStarts(events) && After(multiset{}, events).Some?
    ensures KnownId(events, id, After(multiset{}, events).value)
    decreases |events|
  {
    if events != [] {
      var before, last := events[..|events| - 1], events[|events| - 1];
      assert events == before + [last];
      AfterAppend(multiset{}, before, [last]);
      var open := After(multiset{}, before).value;
      assert [last][1..] == [];
      assert After(open, [last]) == Some(Effect(open, last));
      StateOfId(before, id);
      KnownIdSnoc(before, last, id, open);
    }
  }

  lemma FirstIsAdmissible(open: multiset<string>, events: seq<StreamEvent>)
    requires events != [] && After(open, events).Some?
    ensures Admissible(open, events[0])
  {
  }

  lemma FreshPrefix(events: seq<StreamEvent>, j: nat)
    requires FreshStarts(events) && j <= |events|
    ensures FreshStarts(events[..j])
  {
  }

  // A prefix of a bracketed stream with fresh starts, and the event after it.
  lemma PrefixThenEvent(events: seq<StreamEvent>, j: nat)
    requires FreshStarts(events) && After(multiset{}, events).Some? && j < |events|
    ensures FreshStarts(events[..j]) && After(multiset{}, events[..j]).Some?
    ensures Admissible(After(multiset{}, events[..j]).value, events[j])
  {
    hide After, Admissible, FreshStarts;
    var before, rest := events[..j], events[j..];
    assert events == before + rest;
    AfterAppend(multiset{}, before, rest);
    FirstIsAdmissible(After(multiset{}, before).value, rest);
    assert rest[0] == events[j];
    FreshPrefix(events, j);
  }

  /** In a bracketed stream whose calls all have different ids, the life of each id is a start,
      then fragments, then at most one end: nothing about it precedes its start and nothing
      follows its end. */
  lemma OneLifePerId(events: seq<StreamEvent>, i: nat, j: nat)
    requires FreshStarts(events) && After(multiset{}, events).Some?
    requires i < j < |events|
    ensures events[i].ToolCallEnd? ==> !About(events[j], events[i].id)
    ensures events[j].ToolCallStart? ==> !About(events[i], events[j].id)
  {
    var before := events[..j];
    PrefixThenEvent(events, j);
    assert events[i] == before[i] && before[i] in before;
    if events[i].ToolCallEnd? && About(events[j], events[i].id) {
      StateOfId(before, events[i].id);
      assert Mentions(before, events[i].id);
    }
    if events[j].ToolCallStart? && About(events[i], events[j].id) {
      StateOfId(before, events[j].id);
      assert Mentions(before, events[j].id);
    }
  }
}

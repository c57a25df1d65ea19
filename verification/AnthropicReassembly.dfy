/** From Anthropic message streams back to text and whole tool calls. Blocks that start, grow and
    stop say about calls what OpenAI's deltas say, so the proof compares the two parsers. */
module AnthropicReassembly {
  import opened Text
  import opened StreamEvents
  import opened SseFraming
  import opened SseStream
  import opened SseChunking
  import opened IndexMap
  import opened ChatComplete
  import opened AnthropicParser
  import O = OpenAiParser
  import R = ToolCallReassembly

  // ---- what the frames say ----

  // What a frame says about tool calls: a block opens a call, or adds to its arguments.
  function DeltasOf(decode: Decoder, frame: Frame): seq<O.ToolDelta> {
    var decoded := decode(frame.data);
    if Trim(frame.data) == "" || decoded.Malformed? then []
    else
      var root := decoded.root;
      if frame.event == "content_block_start" && root.blockType == Some("tool_use") then
        [O.ToolDelta(root.index, Some(OrElse(root.blockId, "")), Some(OrElse(root.blockName, "")), None)]
      else if frame.event == "content_block_delta" && root.deltaType == Some("input_json_delta") then
        [O.ToolDelta(root.index, None, None, root.partialJson)]
      else []
  }

  function AllDeltas(decode: Decoder, frames: seq<Frame>): seq<O.ToolDelta> {
    if frames == [] then [] else DeltasOf(decode, frames[0]) + AllDeltas(decode, frames[1..])
  }

  function TextOf(decode: Decoder, frame: Frame): string {
    var decoded := decode(frame.data);
    if Trim(frame.data) != "" && decoded.Json? && frame.event == "content_block_delta"
       && decoded.root.deltaType == Some("text_delta")
    then OrElse(decoded.root.text, "")
    else ""
  }

  function AllText(decode: Decoder, frames: seq<Frame>): string {
    if frames == [] then "" else TextOf(decode, frames[0]) + AllText(decode, frames[1..])
  }

  // No frame is malformed or reports an error.
  ghost predicate Clean(decode: Decoder, frames: seq<Frame>) {
    forall f | f in frames :: Trim(f.data) == "" || (decode(f.data).Json? && f.event != "error")
  }

  // A block that has stopped is not mentioned again.
  ghost predicate StopIsLast(decode: Decoder, frames: seq<Frame>) {
    frames == [] ||
    (StopIsLast(decode, frames[1..])
     && (IsStop(decode, frames[0]) ==>
           forall tc | tc in AllDeltas(decode, frames[1..]) ::
               O.Position(tc) != AsU32(decode(frames[0].data).root.index)))
  }

  // A well-formed message stream: clean, every block opened once under an id of its own before
  // anything is added to it, and nothing added after it stops.
  ghost predicate WellFormed(decode: Decoder, frames: seq<Frame>) {
    Clean(decode, frames) && StopIsLast(decode, frames) && R.OpenedOnce(AllDeltas(decode, frames))
  }

  // ---- the calls ----

  // Both parsers remember the same owner for every index still to be mentioned.
  ghost predicate SameOwners(ids: Entries, others: Entries, tcs: seq<O.ToolDelta>) {
    forall tc | tc in tcs :: Lookup(ids, O.Position(tc)) == Lookup(others, O.Position(tc))
  }

  lemma SameOwnersAfterStart(ids: Entries, others: Entries, index: nat, id: string, tcs: seq<O.ToolDelta>)
    requires SameOwners(ids, others, tcs)
    ensures SameOwners(Insert(ids, index, id), Insert(others, index, id), tcs)
  {
    forall tc | tc in tcs
      ensures Lookup(Insert(ids, index, id), O.Position(tc)) == Lookup(Insert(others, index, id), O.Position(tc))
    {
      InsertLookup(ids, index, id, O.Position(tc));
      InsertLookup(others, index, id, O.Position(tc));
    }
  }

  lemma SameOwnersAfterStop(ids: Entries, others: Entries, index: nat, tcs: seq<O.ToolDelta>)
    requires SameOwners(ids, others, tcs) && DistinctKeys(ids)
    requires forall tc | tc in tcs :: O.Position(tc) != index
    ensures SameOwners(Remove(ids, index), others, tcs)
  {
    forall tc | tc in tcs
      ensures Lookup(Remove(ids, index), O.Position(tc)) == Lookup(others, O.Position(tc))
    {
      RemoveLookup(ids, index, O.Position(tc));
    }
  }

  // A frame that says something about a call: both parsers start or extend the same call.
  lemma SpeakingFrame(decode: Decoder, s: State, frame: Frame, others: Entries, later: seq<O.ToolDelta>)
    requires DeltasOf(decode, frame) != [] && SameOwners(s.toolCallIds, others, DeltasOf(decode, frame) + later)
    ensures var (t, result) := OnFrame(decode, s, frame);
            var (others1, events) := O.OnToolDelta(others, DeltasOf(decode, frame)[0]);
            EventsOf(result) == events && SameOwners(t.toolCallIds, others1, later)
    ensures |DeltasOf(decode, frame)| == 1
  {
    var root := decode(frame.data).root;
    var index, tc := AsU32(root.index), DeltasOf(decode, frame)[0];
    assert tc in DeltasOf(decode, frame) + later;
    assert forall u | u in later :: u in DeltasOf(decode, frame) + later;
    if frame.event == "content_block_start" {
      SameOwnersAfterStart(s.toolCallIds, others, index, OrElse(root.blockId, ""), later);
      var start := O.StartOf(tc);
      assert start + [] == start;
    } else {
      var fragment := O.FragmentOf(others, tc);
      assert [] + fragment == fragment;
    }
  }

  // Any other frame: no call is touched, and an owner is only forgotten when its block stops.
  lemma SilentFrame(decode: Decoder, s: State, frame: Frame, others: Entries, later: seq<O.ToolDelta>)
    requires DeltasOf(decode, frame) == [] && SameOwners(s.toolCallIds, others, later) && DistinctKeys(s.toolCallIds)
    requires IsStop(decode, frame) ==> forall tc | tc in later :: O.Position(tc) != AsU32(decode(frame.data).root.index)
    ensures var (t, result) := OnFrame(decode, s, frame);
            (forall e | e in EventsOf(result) :: !e.ToolCallStart? && !e.ToolCallDelta?)
            && SameOwners(t.toolCallIds, others, later)
  {
    if IsStop(decode, frame) {
      SameOwnersAfterStop(s.toolCallIds, others, AsU32(decode(frame.data).root.index), later);
    }
  }

  lemma {:induction false} FramesCalls(decode: Decoder, s: State, frames: seq<Frame>, others: Entries, calls: Builders)
    requires StopIsLast(decode, frames) && DistinctKeys(s.toolCallIds)
    requires SameOwners(s.toolCallIds, others, AllDeltas(decode, frames))
    ensures CallsOf(Drive(AsParser(decode), s, frames).1, calls)
         == CallsOf(O.OnToolDeltas(others, AllDeltas(decode, frames)).1, calls)
    decreases |frames|
  {
    hide OnFrame, DeltasOf, SameOwners, IsStop, DistinctKeys, CallsOf, O.OnToolDelta;
    if frames != [] {
      var f, rest := frames[0], frames[1..];
      var (t, result) := OnFrame(decode, s, f);
      var events, later := EventsOf(result), AllDeltas(decode, rest);
      CallsOfAppend(events, Drive(AsParser(decode), t, rest).1, calls);
      KeysDistinctStep(decode, s, f);
      if DeltasOf(decode, f) == [] {
        assert [] + later == later;
        SilentFrame(decode, s, f, others, later);
        R.NoCallEvents(events, calls);
        FramesCalls(decode, t, rest, others, calls);
      } else {
        var tc := DeltasOf(decode, f)[0];
        SpeakingFrame(decode, s, f, others, later);
        assert DeltasOf(decode, f) == [tc];
        var others1 := O.OnToolDelta(others, tc).0;
        FramesCalls(decode, t, rest, others1, CallsOf(events, calls));
        CallsOfAppend(events, O.OnToolDeltas(others1, later).1, calls);
        assert ([tc] + later)[1..] == later;
      }
    }
  }

  // ---- the text ----

  lemma {:induction false} FramesText(decode: Decoder, s: State, frames: seq<Frame>)
    requires Clean(decode, frames)
    ensures AllTokens(Drive(AsParser(decode), s, frames).1) == AllText(decode, frames)
    ensures NoError(Drive(AsParser(decode), s, frames).1)
    decreases |frames|
  {
    if frames != [] {
      var (t, result) := OnFrame(decode, s, frames[0]);
      assert frames[0] in frames;
      FrameText(decode, s, frames[0]);
      FramesText(decode, t, frames[1..]);
      R.AllTokensAppend(EventsOf(result), Drive(AsParser(decode), t, frames[1..]).1);
    }
  }

  lemma TokensOfOne(events: seq<StreamEvent>)
    requires |events| <= 1
    ensures AllTokens(events) == if events != [] && events[0].Token? then events[0].content else ""
  {
    if events != [] {
      assert events[1..] == [];
      assert (if events[0].Token? then events[0].content else "") + "" == if events[0].Token? then events[0].content else "";
    }
  }

  lemma FrameText(decode: Decoder, s: State, frame: Frame)
    requires Trim(frame.data) == "" || (decode(frame.data).Json? && frame.event != "error")
    ensures var events := EventsOf(OnFrame(decode, s, frame).1);
            AllTokens(events) == TextOf(decode, frame) && NoError(events)
  {
    hide AllTokens;
    var events := EventsOf(OnFrame(decode, s, frame).1);
    assert |events| <= 1;
    TokensOfOne(events);
  }

  // ---- whole streams ----

  // What a well-formed stream amounts to.
  lemma FramesReassemble(decode: Decoder, frames: seq<Frame>)
    requires WellFormed(decode, frames)
    ensures var r := Collect(Drive(AsParser(decode), FRESH, frames).1, NOTHING);
            r.Response? && OrElse(r.content, "") == AllText(decode, frames)
            && R.Reassembled(AllDeltas(decode, frames), if r.toolCalls.Some? then r.toolCalls.value else map[])
  {
    FramesText(decode, FRESH, frames);
    ResponseIsComplete(Drive(AsParser(decode), FRESH, frames).1);
    FramesCalls(decode, FRESH, frames, [], map[]);
    R.DeltasReassemble(AllDeltas(decode, frames));
  }

  /** End to end: a well-formed message stream of any length, cut into any chunks, is collected to
      exactly its text and its tool calls, each with its id, name and fragments in order. */
  lemma StreamedToolCallsReassemble(decode: Decoder, chunks: seq<string>)
    requires NeverOverflows(chunks)
    ensures EachFits(Pieces(Received(chunks))) ==>
              Delivered(chunks) + Flushed(chunks) == Frames(AllEvents(Concat(chunks)))
    ensures var frames := Delivered(chunks) + Flushed(chunks);
            WellFormed(decode, frames) ==>
              var r := Collect(RunToEnd(AsParser(decode), FRESH, chunks).1, NOTHING);
              r.Response? && OrElse(r.content, "") == AllText(decode, frames)
              && R.Reassembled(AllDeltas(decode, frames), if r.toolCalls.Some? then r.toolCalls.value else map[])
  {
    var frames := Delivered(chunks) + Flushed(chunks);
    WholeTextArrives(chunks);
    RunToEndIsDrive(AsParser(decode), FRESH, chunks);
    if WellFormed(decode, frames) {
      FramesReassemble(decode, frames);
    }
  }
}

/** Chunk boundaries do not matter. Everything here speaks about `OnItem`, the function the
    stream object is proved to compute item by item. */
module SseChunking {
  import opened Text
  import opened StreamEvents
  import opened SseFraming
  import opened SseStream

  function Concat(chunks: seq<string>): string {
    if chunks == [] then "" else Concat(chunks[..|chunks| - 1]) + chunks[|chunks| - 1]
  }

  // All the text a stream has put into its buffer: each chunk is normalised on its own.
  function Received(chunks: seq<string>): string {
    if chunks == [] then "" else Received(chunks[..|chunks| - 1]) + CrLfToLf(chunks[|chunks| - 1])
  }

  // A run of the stream over chunks, without the end of the stream.
  function Run<S>(parse: Parser<S>, parser: S, chunks: seq<string>): (StreamState<S>, seq<StreamEvent>) {
    if chunks == [] then (StreamState(parser, ""), [])
    else
      var (s, before) := Run(parse, parser, chunks[..|chunks| - 1]);
      var (t, events) := OnItem(parse, s, Chunk(chunks[|chunks| - 1]));
      (t, before + events)
  }

  function RunToEnd<S>(parse: Parser<S>, parser: S, chunks: seq<string>): (StreamState<S>, seq<StreamEvent>) {
    var (s, before) := Run(parse, parser, chunks);
    var (t, events) := OnItem(parse, s, EndOfStream);
    (t, before + events)
  }

  predicate Fits(chunks: seq<string>) {
    Utf8Len(Cut(Received(chunks)).rest) <= MAX_SSE_BUFFER_SIZE
  }

  // After no chunk is there an unfinished event larger than the buffer may be.
  ghost predicate NeverOverflows(chunks: seq<string>) {
    forall k | 0 <= k <= |chunks| :: Fits(chunks[..k])
  }

  // ---- cutting commutes with appending ----

  lemma FindInPrefix(a: string, b: string)
    requires FindBlankLine(a).Some?
    ensures FindBlankLine(a + b) == FindBlankLine(a)
  {
    var p := FindBlankLine(a).value;
    FindsFirst(a, 0);
    FindsFirst(a + b, p);
    assert BlankLineAt(a + b, p);
    var q := FindBlankLine(a + b).value;
    FindsFirst(a, q);
    assert q + 1 < |a|;
    assert BlankLineAt(a, q) == BlankLineAt(a + b, q);
  }

  // The first cut of `a + b` is that of `a`, if `a` has one.
  lemma CutStep(a: string, b: string)
    requires FindBlankLine(a).Some?
    ensures var p := FindBlankLine(a).value;
            var c := Cut(a[p + 2..] + b);
            Cut(a + b) == Cuts([a[..p]] + c.segments, c.rest)
  {
    FindInPrefix(a, b);
    var p := FindBlankLine(a).value;
    assert (a + b)[..p] == a[..p] && (a + b)[p + 2..] == a[p + 2..] + b;
  }

  lemma CutFirst(buf: string)
    ensures FindBlankLine(buf) == None ==> Cut(buf) == Cuts([], buf)
    ensures FindBlankLine(buf).Some? ==>
              var p := FindBlankLine(buf).value;
              var later := Cut(buf[p + 2..]);
              Cut(buf) == Cuts([buf[..p]] + later.segments, later.rest)
  {
    hide FindBlankLine;
  }

  lemma {:induction false} CutAppend(a: string, b: string)
    ensures Cut(a + b).segments == Cut(a).segments + Cut(Cut(a).rest + b).segments
    ensures Cut(a + b).rest == Cut(Cut(a).rest + b).rest
    decreases |a|
  {
    hide Cut;
    CutFirst(a);
    if FindBlankLine(a).Some? {
      var p := FindBlankLine(a).value;
      var later, more := Cut(a[p + 2..]), Cut(Cut(a).rest + b);
      CutStep(a, b);
      CutAppend(a[p + 2..], b);
      AppendAssociates([a[..p]], later.segments, more.segments);
    } else {
      assert [] + Cut(a + b).segments == Cut(a + b).segments;
    }
  }

  lemma {:induction false} SegmentFramesAppend(first: seq<string>, second: seq<string>)
    ensures SegmentFrames(first + second) == SegmentFrames(first) + SegmentFrames(second)
  {
    if first == [] {
      assert first + second == second;
    } else {
      assert (first + second)[1..] == first[1..] + second;
      SegmentFramesAppend(first[1..], second);
      AppendAssociates(OneShot(first[0]), SegmentFrames(first[1..]), SegmentFrames(second));
    }
  }

  // ---- what a run without overflow does ----

  // The frames the parser has been given once all text is in, and those of the final flush.
  function Delivered(chunks: seq<string>): seq<Frame> {
    SegmentFrames(Cut(Received(chunks)).segments)
  }

  function Flushed(chunks: seq<string>): seq<Frame> {
    OneShot(Cut(Received(chunks)).rest)
  }

  lemma NeverOverflowsEarlier(chunks: seq<string>)
    requires chunks != [] && NeverOverflows(chunks)
    ensures NeverOverflows(chunks[..|chunks| - 1]) && Fits(chunks)
  {
    var earlier := chunks[..|chunks| - 1];
    forall k | 0 <= k <= |earlier|
      ensures Fits(earlier[..k])
    {
      assert earlier[..k] == chunks[..k];
    }
    assert chunks[..|chunks|] == chunks;
  }

  // What one more chunk delivers.
  lemma DeliveredSnoc(earlier: seq<string>, piece: string)
    ensures var c := Cut(Cut(Received(earlier)).rest + piece);
            Cut(Received(earlier) + piece).rest == c.rest
            && SegmentFrames(Cut(Received(earlier) + piece).segments) == Delivered(earlier) + SegmentFrames(c.segments)
  {
    CutAppend(Received(earlier), piece);
    SegmentFramesAppend(Cut(Received(earlier)).segments, Cut(Cut(Received(earlier)).rest + piece).segments);
  }

  /** The buffer is the unfinished rest of everything received, and the parser has been
      driven through exactly the finished part. */
  lemma {:induction false} RunIsDrive<S>(parse: Parser<S>, parser: S, chunks: seq<string>)
    requires NeverOverflows(chunks)
    ensures var (s, events) := Run(parse, parser, chunks);
            s.buf == Cut(Received(chunks)).rest
            && (s.parser, events) == Drive(parse, parser, Delivered(chunks))
  {
    if chunks != [] {
      var n := |chunks| - 1;
      var earlier, piece := chunks[..n], CrLfToLf(chunks[n]);
      NeverOverflowsEarlier(chunks);
      RunIsDrive(parse, parser, earlier);
      var s := Run(parse, parser, earlier).0;
      DeliveredSnoc(earlier, piece);
      DriveAppend(parse, parser, Delivered(earlier), SegmentFrames(Cut(s.buf + piece).segments));
      AbsorbWithoutOverflow(parse, s.(buf := s.buf + piece));
    }
  }

  lemma AbsorbWithoutOverflow<S>(parse: Parser<S>, s: StreamState<S>)
    requires Utf8Len(Cut(s.buf).rest) <= MAX_SSE_BUFFER_SIZE
    ensures var (p, events) := Drive(parse, s.parser, SegmentFrames(Cut(s.buf).segments));
            Absorb(parse, s) == (StreamState(p, Cut(s.buf).rest), events)
  {
    if FindBlankLine(s.buf) == None {
      assert Cut(s.buf) == Cuts([], s.buf);
    }
  }

  // The end of the stream flushes what is left in a well-formed buffer.
  lemma FlushIsDrive<S>(parse: Parser<S>, s: StreamState<S>)
    requires FindBlankLine(s.buf) == None && Utf8Len(s.buf) <= MAX_SSE_BUFFER_SIZE
    ensures var (p, events) := Drive(parse, s.parser, OneShot(s.buf));
            OnItem(parse, s, EndOfStream) == (StreamState(p, ""), events)
  {
    hide Cut, OneShot;
    CutFirst(s.buf);
    AbsorbWithoutOverflow(parse, s);
    var (p, events) := Drive(parse, s.parser, OneShot(s.buf));
    assert [] + events == events;
  }

  lemma RunToEndIsDrive<S>(parse: Parser<S>, parser: S, chunks: seq<string>)
    requires NeverOverflows(chunks)
    ensures var (s, events) := RunToEnd(parse, parser, chunks);
            s.buf == "" && (s.parser, events) == Drive(parse, parser, Delivered(chunks) + Flushed(chunks))
  {
    RunIsDrive(parse, parser, chunks);
    assert chunks[..|chunks|] == chunks;
    FlushIsDrive(parse, Run(parse, parser, chunks).0);
    DriveAppend(parse, parser, Delivered(chunks), Flushed(chunks));
  }

  // ---- the frames of the pieces are the frames of the whole ----

  // The pieces a text is cut into: the complete segments and the rest.
  function Pieces(text: string): seq<string> {
    Cut(text).segments + [Cut(text).rest]
  }

  // The frames of all pieces when no limit on events is applied.
  function AllFrames(pieces: seq<string>): seq<Frame> {
    if pieces == [] then [] else Frames(AllEvents(pieces[0])) + AllFrames(pieces[1..])
  }

  lemma AllFramesCons(first: string, rest: seq<string>)
    ensures AllFrames([first] + rest) == Frames(AllEvents(first)) + AllFrames(rest)
  {
    assert ([first] + rest)[1..] == rest;
  }

  lemma {:induction false} PiecesKeepFrames(text: string)
    ensures AllFrames(Pieces(text)) == Frames(AllEvents(text))
    decreases |text|
  {
    hide Cut, AllEvents;
    var pos := FindBlankLine(text);
    CutFirst(text);
    if pos == None {
      assert Pieces(text) == [text];
      AllFramesCons(text, []);
    } else {
      var x, y := text[..pos.value], text[pos.value + 2..];
      FindsFirst(text, 0);
      assert text == x + "\n\n" + y;
      SplitAtBlankLine(x, y);
      PiecesKeepFrames(y);
      AppendAssociates([x], Cut(y).segments, [Cut(y).rest]);
      AllFramesCons(x, Pieces(y));
    }
  }

  lemma FramesOfTake(events: seq<RawSseEvent>)
    ensures Frames(Take(events, MAX_SSE_EVENTS)) == Take(Frames(events), MAX_SSE_EVENTS)
  {
  }

  lemma TakeOfSum(a: seq<Frame>, b: seq<Frame>, n: nat)
    requires |Take(a, n) + Take(b, n)| <= n
    ensures Take(a, n) + Take(b, n) == Take(a + b, n)
  {
    if |a| > n {
      assert (a + b)[..n] == a[..n] + b[..0];
    } else if |b| > n {
      assert a == [] && a + b == b;
    }
  }

  // Cutting each piece at the limit is cutting the whole at the limit, unless more comes of it.
  lemma {:induction false} LimitOnPieces(pieces: seq<string>)
    ensures |SegmentFrames(pieces)| <= MAX_SSE_EVENTS <==>
              SegmentFrames(pieces) == Take(AllFrames(pieces), MAX_SSE_EVENTS)
  {
    if pieces != [] {
      var first, rest := Frames(AllEvents(pieces[0])), AllFrames(pieces[1..]);
      LimitOnPieces(pieces[1..]);
      FramesOfTake(AllEvents(pieces[0]));
      if |SegmentFrames(pieces)| <= MAX_SSE_EVENTS {
        TakeOfSum(first, rest, MAX_SSE_EVENTS);
      }
    }
  }

  // Normalising chunk by chunk leaves carriage returns at chunk boundaries; they do not matter.
  lemma {:induction false} ReceivedHasTheSameEvents(chunks: seq<string>, y: string)
    ensures AllEvents(Received(chunks) + y) == AllEvents(Concat(chunks) + y)
  {
    if chunks != [] {
      var earlier, chunk := chunks[..|chunks| - 1], chunks[|chunks| - 1];
      calc {
        AllEvents(Received(chunks) + y);
        { NormaliseAnywhere(Received(earlier), chunk, y); }
        AllEvents(Received(earlier) + chunk + y);
        { AppendAssociates(Received(earlier), chunk, y); }
        AllEvents(Received(earlier) + (chunk + y));
        { ReceivedHasTheSameEvents(earlier, chunk + y); }
        AllEvents(Concat(earlier) + (chunk + y));
        { AppendAssociates(Concat(earlier), chunk, y); }
        AllEvents(Concat(chunks) + y);
      }
    }
  }

  lemma SameEvents(chunks: seq<string>)
    ensures AllEvents(Received(chunks)) == AllEvents(Concat(chunks))
  {
    ReceivedHasTheSameEvents(chunks, "");
    assert Received(chunks) + "" == Received(chunks);
    assert Concat(chunks) + "" == Concat(chunks);
  }

  lemma DeliveredIsOfPieces(chunks: seq<string>)
    ensures Delivered(chunks) + Flushed(chunks) == SegmentFrames(Pieces(Received(chunks)))
  {
    var c := Cut(Received(chunks));
    SegmentFramesAppend(c.segments, [c.rest]);
    assert [c.rest][1..] == [] && OneShot(c.rest) + [] == OneShot(c.rest);
  }

  /** The frames a run delivers, for any chunks: they are the ones the one-shot parser reports for
      the whole text exactly when they are no more than one parse may report. */
  lemma DeliveredFrames(chunks: seq<string>)
    ensures Delivered(chunks) + Flushed(chunks) == OneShot(Concat(chunks))
            <==> |Delivered(chunks) + Flushed(chunks)| <= MAX_SSE_EVENTS
  {
    DeliveredIsOfPieces(chunks);
    LimitOnPieces(Pieces(Received(chunks)));
    PiecesKeepFrames(Received(chunks));
    SameEvents(chunks);
    FramesOfTake(AllEvents(Concat(chunks)));
  }

  lemma {:induction false} FewerOnPieces(pieces: seq<string>)
    ensures |SegmentFrames(pieces)| <= |AllFrames(pieces)|
  {
    if pieces != [] {
      FewerOnPieces(pieces[1..]);
    }
  }

  // No piece by itself has more events than one parse may report.
  ghost predicate EachFits(pieces: seq<string>) {
    forall p | p in pieces :: |AllEvents(p)| <= MAX_SSE_EVENTS
  }

  // The limit takes nothing away exactly when each piece is within it.
  lemma {:induction false} NothingTaken(pieces: seq<string>)
    ensures SegmentFrames(pieces) == AllFrames(pieces) <==> EachFits(pieces)
  {
    hide AllEvents;
    if pieces != [] {
      var first, rest := Frames(AllEvents(pieces[0])), pieces[1..];
      NothingTaken(rest);
      FewerOnPieces(rest);
      FramesOfTake(AllEvents(pieces[0]));
      assert pieces == [pieces[0]] + rest;
      if SegmentFrames(pieces) == AllFrames(pieces) {
        assert |OneShot(pieces[0])| == |first| && |SegmentFrames(rest)| == |AllFrames(rest)|;
        assert OneShot(pieces[0]) == SegmentFrames(pieces)[..|first|] == first;
        assert SegmentFrames(rest) == SegmentFrames(pieces)[|first|..] == AllFrames(rest);
      }
    }
  }

  /** However long the text is, a run delivers exactly its frames when, and only when, between no
      two blank lines there are more events than one parse may report. */
  lemma WholeTextArrives(chunks: seq<string>)
    ensures Delivered(chunks) + Flushed(chunks) == Frames(AllEvents(Concat(chunks)))
            <==> EachFits(Pieces(Received(chunks)))
  {
    DeliveredIsOfPieces(chunks);
    NothingTaken(Pieces(Received(chunks)));
    PiecesKeepFrames(Received(chunks));
    SameEvents(chunks);
  }

  /** Main theorem. For every text, every way of cutting it into chunks and every provider
      parser: the events of all chunks and of the final flush, and the state the parser ends
      in, are those of feeding the parser with all events of the whole text at once, or, as long
      as their number is within the limit on one parse, with the one-shot parse of it. */
  lemma ChunkingDoesNotMatter<S>(parse: Parser<S>, parser: S, chunks: seq<string>)
    requires NeverOverflows(chunks)
    ensures RunToEnd(parse, parser, chunks).0.buf == ""
    ensures EachFits(Pieces(Received(chunks))) ==>
              var (s, events) := RunToEnd(parse, parser, chunks);
              (s.parser, events) == Drive(parse, parser, Frames(AllEvents(Concat(chunks))))
    ensures |Delivered(chunks) + Flushed(chunks)| <= MAX_SSE_EVENTS ==>
              var (s, events) := RunToEnd(parse, parser, chunks);
              (s.parser, events) == Drive(parse, parser, OneShot(Concat(chunks)))
  {
    hide RunToEnd, OneShot, AllEvents, Delivered, Flushed, Received, Drive;
    WholeTextArrives(chunks);
    DeliveredFrames(chunks);
    RunToEndIsDrive(parse, parser, chunks);
  }

  // ---- errors of the response body ----

  // A run over chunks and body errors, with the events of each item.
  function RunItems<S>(parse: Parser<S>, parser: S, items: seq<Item>): (StreamState<S>, seq<seq<StreamEvent>>) {
    if items == [] then (StreamState(parser, ""), [])
    else
      var (s, before) := RunItems(parse, parser, items[..|items| - 1]);
      var (t, events) := OnItem(parse, s, items[|items| - 1]);
      (t, before + [events])
  }

  function ChunksOf(items: seq<Item>): seq<string> {
    if items == [] then []
    else
      ChunksOf(items[..|items| - 1])
      + var last := items[|items| - 1]; if last.Chunk? then [last.text] else []
  }

  // The events of the chunks, in order; those of body errors are left out.
  function ChunkEvents(items: seq<Item>, outs: seq<seq<StreamEvent>>): seq<StreamEvent>
    requires |items| == |outs|
  {
    if items == [] then []
    else
      var n := |items| - 1;
      ChunkEvents(items[..n], outs[..n]) + if items[n].Chunk? then outs[n] else []
  }

  /** Errors of the response body between the chunks, in any number, only add their own error
      events in their places: the chunks' events, the parser's state and the buffer are those of
      the run over the chunks alone. */
  lemma {:induction false} BodyErrorsOnlyInterleave<S>(parse: Parser<S>, parser: S, items: seq<Item>)
    requires EndOfStream !in items
    ensures var (s, outs) := RunItems(parse, parser, items);
            |outs| == |items| && (s, ChunkEvents(items, outs)) == Run(parse, parser, ChunksOf(items))
            && forall i | 0 <= i < |items| && items[i].BodyError? :: outs[i] == [Error(items[i].message)]
  {
    hide OnItem;
    if items != [] {
      var n := |items| - 1;
      var earlier, last := items[..n], items[n];
      assert items == earlier + [last];
      BodyErrorsOnlyInterleave(parse, parser, earlier);
      var outs := RunItems(parse, parser, items).1;
      assert outs[..n] == RunItems(parse, parser, earlier).1;
      assert ChunkEvents(earlier, outs[..n]) + [] == ChunkEvents(earlier, outs[..n]);
      OneMoreItem(parse, parser, items);
    }
  }

  lemma OneMoreItem<S>(parse: Parser<S>, parser: S, items: seq<Item>)
    requires items != [] && items[|items| - 1] != EndOfStream
    ensures var n := |items| - 1;
            var (s, before) := Run(parse, parser, ChunksOf(items[..n]));
            var (t, events) := OnItem(parse, s, items[n]);
            Run(parse, parser, ChunksOf(items)) == (t, if items[n].Chunk? then before + events else before)
            && (items[n].BodyError? ==> t == s && events == [Error(items[n].message)])
  {
    hide Absorb;
    var n := |items| - 1;
    var earlier := ChunksOf(items[..n]);
    if items[n].Chunk? {
      var chunks := earlier + [items[n].text];
      assert chunks[..|chunks| - 1] == earlier && ChunksOf(items) == chunks;
    } else {
      assert ChunksOf(items) == earlier;
    }
  }

  /** So nothing of the text is lost or changed by a body error in the middle of it. */
  lemma BodyErrorsLoseNothing<S>(parse: Parser<S>, parser: S, items: seq<Item>)
    requires EndOfStream !in items
    requires NeverOverflows(ChunksOf(items)) && EachFits(Pieces(Received(ChunksOf(items))))
    ensures var (s, outs) := RunItems(parse, parser, items);
            var (t, last) := OnItem(parse, s, EndOfStream);
            |outs| == |items|
            && (t.parser, ChunkEvents(items, outs) + last)
               == Drive(parse, parser, Frames(AllEvents(Concat(ChunksOf(items)))))
  {
    hide OnItem, Run, AllEvents, Drive;
    BodyErrorsOnlyInterleave(parse, parser, items);
    ChunkingDoesNotMatter(parse, parser, ChunksOf(items));
  }

  // ---- beyond the limits ----

  // A provider parser that never reports an overflow itself.
  ghost predicate Quiet<S(!new)>(parse: Parser<S>) {
    forall s, frame :: !Overflowed(EventsOf(parse(s, frame).1))
  }

  predicate Overflowed(events: seq<StreamEvent>) {
    FORCED in events || DISCARDED in events
  }

  lemma {:induction false} DriveIsQuiet<S(!new)>(parse: Parser<S>, parser: S, frames: seq<Frame>)
    requires Quiet(parse)
    ensures !Overflowed(Drive(parse, parser, frames).1)
    decreases |frames|
  {
    if frames != [] {
      var (p, result) := parse(parser, frames[0]);
      assert !Overflowed(EventsOf(result));
      DriveIsQuiet(parse, p, frames[1..]);
    }
  }

  lemma AbsorbShowsOverflow<S(!new)>(parse: Parser<S>, s: StreamState<S>)
    requires Quiet(parse)
    ensures Overflowed(Absorb(parse, s).1) <==> Utf8Len(Cut(s.buf).rest) > MAX_SSE_BUFFER_SIZE
  {
    if Utf8Len(s.buf) > MAX_SSE_BUFFER_SIZE && FindBlankLine(s.buf) == None {
      assert Absorb(parse, s).1 == Drive(parse, s.parser, OneShot(s.buf)).1 + [FORCED];
    } else {
      DriveIsQuiet(parse, s.parser, SegmentFrames(Cut(s.buf).segments));
    }
  }

  lemma {:induction false} RunShowsOverflow<S(!new)>(parse: Parser<S>, parser: S, chunks: seq<string>)
    requires Quiet(parse)
    ensures Overflowed(Run(parse, parser, chunks).1) <==> !NeverOverflows(chunks)
  {
    if chunks == [] {
      assert Received([]) == "" && Fits([]);
      assert forall k | 0 <= k <= 0 :: chunks[..k] == [];
    } else {
      var n := |chunks| - 1;
      var earlier, piece := chunks[..n], CrLfToLf(chunks[n]);
      RunShowsOverflow(parse, parser, earlier);
      OverflowsLater(chunks);
      if NeverOverflows(earlier) {
        RunIsDrive(parse, parser, earlier);
        DeliveredSnoc(earlier, piece);
      }
      var s := Run(parse, parser, earlier).0;
      AbsorbShowsOverflow(parse, s.(buf := s.buf + piece));
    }
  }

  lemma OverflowsLater(chunks: seq<string>)
    requires chunks != []
    ensures NeverOverflows(chunks) <==> NeverOverflows(chunks[..|chunks| - 1]) && Fits(chunks)
  {
    var n := |chunks| - 1;
    var earlier := chunks[..n];
    assert chunks[..n + 1] == chunks;
    if NeverOverflows(chunks) {
      NeverOverflowsEarlier(chunks);
    }
    if NeverOverflows(earlier) && Fits(chunks) {
      forall k | 0 <= k <= n + 1
        ensures Fits(chunks[..k])
      {
        if k <= n { assert earlier[..k] == chunks[..k]; }
      }
    }
  }

  /** With a parser that does not report overflows itself, a run overflows exactly when its
      events say so. */
  lemma OverflowShows<S(!new)>(parse: Parser<S>, parser: S, chunks: seq<string>)
    requires Quiet(parse)
    ensures Overflowed(RunToEnd(parse, parser, chunks).1) <==> !NeverOverflows(chunks)
  {
    RunShowsOverflow(parse, parser, chunks);
    if NeverOverflows(chunks) {
      RunToEndIsDrive(parse, parser, chunks);
      DriveIsQuiet(parse, parser, Delivered(chunks) + Flushed(chunks));
    }
  }

  // A parser that only remembers what it was given.
  function Recorder(): Parser<seq<Frame>> {
    (seen: seq<Frame>, frame: Frame) => (seen + [frame], Ok([]))
  }

  lemma {:induction false} RecorderRecords(seen: seq<Frame>, frames: seq<Frame>)
    ensures Drive(Recorder(), seen, frames) == (seen + frames, [])
    decreases |frames|
  {
    if frames == [] {
      assert seen + [] == seen;
    } else {
      RecorderRecords(seen + [frames[0]], frames[1..]);
      assert seen + [frames[0]] + frames[1..] == seen + frames;
      assert Recorder()(seen, frames[0]) == (seen + [frames[0]], Ok([]));
      var none: seq<StreamEvent> := [];
      assert none + none == none;
    }
  }

  lemma RecordedInRun(chunks: seq<string>)
    requires NeverOverflows(chunks)
    ensures var (s, events) := RunToEnd(Recorder(), [], chunks);
            s.parser == Delivered(chunks) + Flushed(chunks) && events == []
  {
    hide RunToEnd, Delivered, Flushed, NeverOverflows;
    var frames := Delivered(chunks) + Flushed(chunks);
    RunToEndIsDrive(Recorder(), [], chunks);
    RecorderRecords([], frames);
    assert [] + frames == frames;
  }

  lemma RecorderAbsorbs<S>(parse: Parser<S>, parser: S, seen: seq<Frame>, buf: string)
    ensures var r := Absorb(Recorder(), StreamState(seen, buf)).0;
            var s := Absorb(parse, StreamState(Drive(parse, parser, seen).0, buf)).0;
            s == StreamState(Drive(parse, parser, r.parser).0, r.buf)
  {
    hide Cut, OneShot, FindBlankLine;
    var p := Drive(parse, parser, seen).0;
    RecorderRecords(seen, OneShot(buf));
    RecorderRecords(seen, SegmentFrames(Cut(buf).segments));
    DriveAppend(parse, parser, seen, OneShot(buf));
    DriveAppend(parse, parser, seen, SegmentFrames(Cut(buf).segments));
  }

  lemma {:induction false} RecorderRuns<S>(parse: Parser<S>, parser: S, chunks: seq<string>)
    ensures var r := Run(Recorder(), [], chunks).0;
            Run(parse, parser, chunks).0 == StreamState(Drive(parse, parser, r.parser).0, r.buf)
  {
    hide Absorb, Drive;
    if chunks == [] {
      DriveNothing(parse, parser);
    } else {
      var n := |chunks| - 1;
      RecorderRuns(parse, parser, chunks[..n]);
      var r := Run(Recorder(), [], chunks[..n]).0;
      RecorderAbsorbs(parse, parser, r.parser, r.buf + CrLfToLf(chunks[n]));
    }
  }

  lemma DriveNothing<S>(parse: Parser<S>, parser: S)
    ensures Drive(parse, parser, []) == (parser, [])
  {
  }

  /** Whatever the chunks, even when the buffer overflows, every parser is given the same frames,
      those that a parser which only remembers them has in the end. */
  lemma ParsersAreGivenTheSame<S>(parse: Parser<S>, parser: S, chunks: seq<string>)
    ensures RunToEnd(parse, parser, chunks).0
         == StreamState(Drive(parse, parser, RunToEnd(Recorder(), [], chunks).0.parser).0, "")
  {
    hide Run, Cut, OneShot, Absorb;
    RecorderRuns(parse, parser, chunks);
    var r := Run(Recorder(), [], chunks).0;
    RecorderAbsorbs(parse, parser, r.parser, r.buf);
    var t := Absorb(Recorder(), r).0;
    RecorderRecords(t.parser, OneShot(t.buf));
    DriveAppend(parse, parser, t.parser, OneShot(t.buf));
  }

  /** So both conditions of the main theorem are needed: for a parser that remembers its frames,
      chunking does not matter exactly when nothing overflows and no more events are delivered
      than one parse may report. */
  lemma ChunkingMattersBeyondLimits(chunks: seq<string>)
    ensures var (s, events) := RunToEnd(Recorder(), [], chunks);
            (s.parser, events) == Drive(Recorder(), [], OneShot(Concat(chunks)))
            <==> NeverOverflows(chunks) && |Delivered(chunks) + Flushed(chunks)| <= MAX_SSE_EVENTS
  {
    hide RunToEnd, OneShot, Delivered, Flushed, NeverOverflows;
    var frames := OneShot(Concat(chunks));
    OverflowShows(Recorder(), [], chunks);
    RecorderRecords([], frames);
    if NeverOverflows(chunks) {
      RecordedInRun(chunks);
      DeliveredFrames(chunks);
    }
    assert [] + frames == frames;
  }

  // ---- what an overflow does ----

  /** An unfinished event that outgrows the buffer is parsed as it is; what came of it, the error
      and an empty buffer are left. */
  lemma OversizedEventIsForced<S>(parse: Parser<S>, s: StreamState<S>, text: string)
    requires var buf := s.buf + CrLfToLf(text); FindBlankLine(buf) == None && Utf8Len(buf) > MAX_SSE_BUFFER_SIZE
    ensures var (p, events) := Drive(parse, s.parser, OneShot(s.buf + CrLfToLf(text)));
            OnItem(parse, s, Chunk(text)) == (StreamState(p, ""), events + [FORCED])
  {
  }

  /** Complete events are handled even when what comes after them outgrows the buffer; only that
      rest is discarded. */
  lemma OversizedRestIsDiscarded<S>(parse: Parser<S>, s: StreamState<S>, text: string)
    requires var buf := s.buf + CrLfToLf(text); FindBlankLine(buf).Some? && Utf8Len(Cut(buf).rest) > MAX_SSE_BUFFER_SIZE
    ensures var (p, events) := Drive(parse, s.parser, SegmentFrames(Cut(s.buf + CrLfToLf(text)).segments));
            OnItem(parse, s, Chunk(text)) == (StreamState(p, ""), events + [DISCARDED])
  {
  }
}

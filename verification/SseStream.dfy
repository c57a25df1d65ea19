/** Incremental SSE parsing. A stream object carries a buffer from chunk to chunk, cuts complete
    events out of it at blank lines and hands them to a stateful provider parser. */
module SseStream {
  import opened Text
  import opened StreamEvents
  import opened SseFraming

  const MAX_SSE_BUFFER_SIZE: nat := 10_000_000

  // ---- provider parsers ----

  datatype ParseResult = Ok(events: seq<StreamEvent>) | Err(message: string)

  // `SseParser::parse_chunk` as a function of the parser's state.
  type Parser<!S> = (S, Frame) -> (S, ParseResult)

  // A parser's error becomes an event of the stream.
  function EventsOf(result: ParseResult): seq<StreamEvent> {
    match result
    case Ok(events) => events
    case Err(message) => [Error(message)]
  }

  // Feeds frames to a parser, one after the other.
  function Drive<S>(parse: Parser<S>, parser: S, frames: seq<Frame>): (S, seq<StreamEvent>) {
    if frames == [] then (parser, [])
    else
      var (p1, result) := parse(parser, frames[0]);
      var (p2, events) := Drive(parse, p1, frames[1..]);
      (p2, EventsOf(result) + events)
  }

  lemma {:induction false} DriveAppend<S>(parse: Parser<S>, parser: S, first: seq<Frame>, second: seq<Frame>)
    ensures var (p1, e1) := Drive(parse, parser, first);
            var (p2, e2) := Drive(parse, p1, second);
            Drive(parse, parser, first + second) == (p2, e1 + e2)
  {
    if first == [] {
      assert first + second == second;
      assert [] + Drive(parse, parser, second).1 == Drive(parse, parser, second).1;
    } else {
      assert (first + second)[1..] == first[1..] + second;
      var (p1, result) := parse(parser, first[0]);
      DriveAppend(parse, p1, first[1..], second);
      var (p2, e1) := Drive(parse, p1, first[1..]);
      var e2 := Drive(parse, p2, second).1;
      assert EventsOf(result) + (e1 + e2) == (EventsOf(result) + e1) + e2;
    }
  }

  lemma DriveSnoc<S>(parse: Parser<S>, parser: S, frames: seq<Frame>, frame: Frame)
    ensures var (p, events) := Drive(parse, parser, frames);
            var (q, result) := parse(p, frame);
            Drive(parse, parser, frames + [frame]) == (q, events + EventsOf(result))
  {
    DriveAppend(parse, parser, frames, [frame]);
    var (q, result) := parse(Drive(parse, parser, frames).0, frame);
    assert [frame][1..] == [] && EventsOf(result) + [] == EventsOf(result);
  }

  // ---- cutting at blank lines ----

  // `str::find("\n\n")`
  function FindBlankLine(buf: string): (pos: Option<nat>)
    ensures pos.Some? ==> pos.value + 2 <= |buf|
  {
    if |buf| < 2 then None
    else if buf[0] == '\n' && buf[1] == '\n' then Some(0)
    else
      var rest := FindBlankLine(buf[1..]);
      if rest.Some? then Some(rest.value + 1) else None
  }

  predicate BlankLineAt(buf: string, i: nat) {
    i + 1 < |buf| && buf[i] == '\n' && buf[i + 1] == '\n'
  }

  /** It finds the first blank line, if there is one. */
  lemma {:induction false} FindsFirst(buf: string, i: nat)
    ensures FindBlankLine(buf).Some? ==> BlankLineAt(buf, FindBlankLine(buf).value)
    ensures BlankLineAt(buf, i) ==> FindBlankLine(buf).Some? && FindBlankLine(buf).value <= i
    decreases |buf|
  {
    if |buf| >= 2 && !BlankLineAt(buf, 0) {
      var rest := FindBlankLine(buf[1..]);
      FindsFirst(buf[1..], if i > 0 then i - 1 else 0);
      if rest.Some? {
        assert BlankLineAt(buf[1..], rest.value) == BlankLineAt(buf, rest.value + 1);
      }
      if i > 0 {
        assert BlankLineAt(buf[1..], i - 1) == BlankLineAt(buf, i);
      }
    }
  }

  // The complete events at the front of a buffer, and what has to wait for more input.
  datatype Cuts = Cuts(segments: seq<string>, rest: string)

  function Cut(buf: string): (c: Cuts)
    ensures FindBlankLine(c.rest) == None
    decreases |buf|
  {
    var pos := FindBlankLine(buf);
    if pos == None then Cuts([], buf)
    else
      var c := Cut(buf[pos.value + 2..]);
      Cuts([buf[..pos.value]] + c.segments, c.rest)
  }

  function OneShot(text: string): seq<Frame> {
    Frames(Take(AllEvents(text), MAX_SSE_EVENTS))
  }

  function SegmentFrames(segments: seq<string>): seq<Frame> {
    if segments == [] then [] else OneShot(segments[0]) + SegmentFrames(segments[1..])
  }

  // What cutting off the first complete event leaves to be done.
  lemma DriveFirstSegment<S>(parse: Parser<S>, parser: S, buf: string)
    requires FindBlankLine(buf).Some?
    ensures var pos := FindBlankLine(buf).value;
            var later := buf[pos + 2..];
            var (p1, e1) := Drive(parse, parser, OneShot(buf[..pos]));
            var (p2, e2) := Drive(parse, p1, SegmentFrames(Cut(later).segments));
            Cut(buf).rest == Cut(later).rest
            && Drive(parse, parser, SegmentFrames(Cut(buf).segments)) == (p2, e1 + e2)
  {
    var pos := FindBlankLine(buf).value;
    var later := Cut(buf[pos + 2..]).segments;
    assert Cut(buf).segments == [buf[..pos]] + later;
    assert ([buf[..pos]] + later)[1..] == later;
    DriveAppend(parse, parser, OneShot(buf[..pos]), SegmentFrames(later));
  }

  lemma NoSegmentsLeft<S>(parse: Parser<S>, parser: S, buf: string)
    requires FindBlankLine(buf) == None
    ensures Cut(buf).rest == buf && Drive(parse, parser, SegmentFrames(Cut(buf).segments)) == (parser, [])
  {
  }

  // ---- the stream ----

  datatype Item = Chunk(text: string) | BodyError(message: string) | EndOfStream

  datatype StreamState<S> = StreamState(parser: S, buf: string)

  const FORCED := Error("SSE buffer overflow: force-parsed without proper event delimiter")
  const DISCARDED := Error("SSE buffer overflow: residual data discarded")

  // Handles whatever is complete in the buffer; a residue beyond the size limit is not kept.
  function Absorb<S>(parse: Parser<S>, s: StreamState<S>): (StreamState<S>, seq<StreamEvent>) {
    if Utf8Len(s.buf) > MAX_SSE_BUFFER_SIZE && FindBlankLine(s.buf) == None then
      var (p, events) := Drive(parse, s.parser, OneShot(s.buf));
      (StreamState(p, ""), events + [FORCED])
    else
      var c := Cut(s.buf);
      var (p, events) := Drive(parse, s.parser, SegmentFrames(c.segments));
      if Utf8Len(c.rest) > MAX_SSE_BUFFER_SIZE
      then (StreamState(p, ""), events + [DISCARDED])
      else (StreamState(p, c.rest), events)
  }

  function OnItem<S>(parse: Parser<S>, s: StreamState<S>, item: Item): (StreamState<S>, seq<StreamEvent>) {
    match item
    case BodyError(message) => (s, [Error(message)])
    case Chunk(text) => Absorb(parse, s.(buf := s.buf + CrLfToLf(text)))
    case EndOfStream =>
      var (t, events) := Absorb(parse, s);
      var (p, last) := Drive(parse, t.parser, OneShot(t.buf));
      (StreamState(p, ""), events + last)
  }

  class SseStream<S> {
    const parse: Parser<S>
    var parser: S
    var buf: string

    constructor (parse: Parser<S>, parser: S)
      ensures Valid()
      ensures this.parse == parse && this.parser == parser && buf == ""
    {
      this.parse, this.parser, buf := parse, parser, "";
      new;
    }

    // Between items the buffer holds no complete event and is within the size limit.
    ghost predicate Valid()
      reads this
    {
      FindBlankLine(buf) == None && Utf8Len(buf) <= MAX_SSE_BUFFER_SIZE
    }

    function State(): StreamState<S>
      reads this
    {
      StreamState(parser, buf)
    }

    // Parses a piece of text and feeds its events to the provider parser.
    method FeedParser(raw: string) returns (events: seq<StreamEvent>)
      modifies this`parser
      ensures (parser, events) == Drive(parse, old(parser), OneShot(raw))
    {
      events := [];
      var raws := ParseRawSse(raw);
      ghost var frames := Frames(raws);
      ghost var all := Drive(parse, parser, frames);
      var i := 0;
      while i < |raws|
        invariant 0 <= i <= |raws|
        invariant Drive(parse, parser, frames[i..]).0 == all.0
        invariant events + Drive(parse, parser, frames[i..]).1 == all.1
      {
        var (next, result) := parse(parser, Frame(raws[i].event, raws[i].data));
        assert frames[i..][0] == frames[i] && frames[i..][1..] == frames[i + 1..];
        AppendAssociates(events, EventsOf(result), Drive(parse, next, frames[i + 1..]).1);
        parser := next;
        events := events + EventsOf(result);
        i := i + 1;
      }
      assert events == all.1;
    }

    /** Handles one item of the response body. Whatever the item, the stream stays valid. */
    method Feed(item: Item) returns (events: seq<StreamEvent>)
      requires Valid()
      modifies this
      ensures Valid()
      ensures (State(), events) == OnItem(parse, old(State()), item)
    {
      if item.BodyError? {
        return [Error(item.message)];
      }
      if item.Chunk? {
        buf := buf + CrLfToLf(item.text);
      }
      events := [];
      ghost var received := State();
      if Utf8Len(buf) > MAX_SSE_BUFFER_SIZE && FindBlankLine(buf) == None {
        events := FeedParser(buf);
        events := events + [FORCED];
        buf := "";
      } else {
        events := FeedSegments();
        if Utf8Len(buf) > MAX_SSE_BUFFER_SIZE {
          events := events + [DISCARDED];
          buf := "";
        }
      }
      assert (State(), events) == Absorb(parse, received);
      if item == EndOfStream {
        if buf != "" {
          var last := FeedParser(buf);
          events := events + last;
          buf := "";
        } else {
          assert AllEvents("") == [];
          assert events + [] == events;
        }
      }
    }

    // The loop over complete events: each is cut off the buffer before it is parsed.
    method FeedSegments() returns (events: seq<StreamEvent>)
      modifies this
      ensures buf == Cut(old(buf)).rest
      ensures (parser, events) == Drive(parse, old(parser), SegmentFrames(Cut(old(buf)).segments))
    {
      hide Cut, SegmentFrames, Drive, OneShot, FindBlankLine;
      events := [];
      ghost var segments := Cut(buf).segments;
      ghost var all := Drive(parse, parser, SegmentFrames(segments));
      var pos := FindBlankLine(buf);
      while pos.Some?
        invariant pos == FindBlankLine(buf)
        invariant Cut(buf).rest == Cut(old(buf)).rest
        invariant Drive(parse, parser, SegmentFrames(Cut(buf).segments)).0 == all.0
        invariant events + Drive(parse, parser, SegmentFrames(Cut(buf).segments)).1 == all.1
        decreases |buf|
      {
        var raw := buf[..pos.value];
        DriveFirstSegment(parse, parser, buf);
        buf := buf[pos.value + 2..];
        var more := FeedParser(raw);
        AppendAssociates(events, more, Drive(parse, parser, SegmentFrames(Cut(buf).segments)).1);
        events := events + more;
        pos := FindBlankLine(buf);
      }
      NoSegmentsLeft(parse, parser, buf);
      assert events == all.1;
    }
  }
}

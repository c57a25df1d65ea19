/** The synchronous SSE parser: text in, raw events out. Besides the parser itself this module
    proves how parsing distributes over blank lines and that carriage returns before a line
    feed do not matter, the two facts incremental parsing rests on. */
module SseFraming {
  import opened Text

  const MAX_SSE_EVENTS: nat := 10000
  const MAX_SSE_DATA_SIZE: nat := 1_000_000

  datatype RawSseEvent = RawSseEvent(event: string, data: string, id: Option<string>)

  // What a provider parser gets to see of an event.
  datatype Frame = Frame(event: string, data: string)

  function Frames(events: seq<RawSseEvent>): seq<Frame> {
    seq(|events|, i requires 0 <= i < |events| => Frame(events[i].event, events[i].data))
  }

  // ---- Rust's `str::lines` ----

  function ChompCr(line: string): string {
    if line != [] && line[|line| - 1] == '\r' then line[..|line| - 1] else line
  }

  // Lines end at "\n" or "\r\n"; a last line without line feed keeps everything it has.
  function Lines(text: string): seq<string>
    decreases |text|
  {
    if text == [] then []
    else
      var k := IndexOf(text, '\n');
      if k == |text| then [text] else [ChompCr(text[..k])] + Lines(text[k + 1..])
  }

  // ---- the specification of the parser ----

  // The events finished so far and the fields of the one being collected.
  datatype Scan = Scan(events: seq<RawSseEvent>, event: string, data: string, id: Option<string>)

  const START := Scan([], "", "", None)

  // A blank line closes the current event, if there is anything to close.
  function Blank(a: Scan): Scan {
    if a.event != "" || a.data != ""
    then Scan(a.events + [RawSseEvent(a.event, a.data, a.id)], "", "", None)
    else a
  }

  function OnLine(a: Scan, line: string): Scan {
    if Trim(line) == "" then Blank(a)
    else if "event:" <= line then a.(event := Trim(line[6..]))
    else if "data:" <= line then
      var value := Trim(line[5..]);
      if Utf8Len(a.data) + Utf8Len(value) > MAX_SSE_DATA_SIZE then a.(event := "", data := "")
      else a.(data := if a.data == "" then value else a.data + "\n" + value)
    else if "id:" <= line then a.(id := Some(Trim(line[3..])))
    else a
  }

  function ScanLines(lines: seq<string>, a: Scan): Scan {
    if lines == [] then a else ScanLines(lines[1..], OnLine(a, lines[0]))
  }

  // All events of a text, before the limit on their number is applied.
  function AllEvents(text: string): seq<RawSseEvent> {
    Blank(ScanLines(Lines(text), START)).events
  }

  function Take<T>(s: seq<T>, n: nat): seq<T> {
    if |s| <= n then s else s[..n]
  }

  /** Parses a complete text. The result is the first MAX_SSE_EVENTS of all its events. */
  method ParseRawSse(input: string) returns (events: seq<RawSseEvent>)
    ensures events == Take(AllEvents(input), MAX_SSE_EVENTS)
  {
    events := [];
    var event, data, id := "", "", None;
    var lines := Lines(input);
    ghost var all := ScanLines(lines, START);
    var i := 0;
    while i < |lines|
      invariant 0 <= i <= |lines|
      invariant |events| <= MAX_SSE_EVENTS
      invariant ScanLines(lines[i..], Scan(events, event, data, id)) == all
    {
      var line := lines[i];
      ghost var before := Scan(events, event, data, id);
      assert lines[i..][1..] == lines[i + 1..];
      if Trim(line) == "" {
        if event != "" || data != "" {
          if |events| >= MAX_SSE_EVENTS {
            EventsGrow(lines[i..], Scan(events, event, data, id));
            break;
          }
          events := events + [RawSseEvent(event, data, id)];
          id := None;
        }
        event, data := "", "";
      } else if "event:" <= line {
        event := Trim(line[6..]);
      } else if "data:" <= line {
        var trimmed := Trim(line[5..]);
        if Utf8Len(data) + Utf8Len(trimmed) > MAX_SSE_DATA_SIZE {
          event, data := "", "";
          i := i + 1;
          continue;
        }
        if data != "" {
          data := data + "\n";
        }
        data := data + trimmed;
        assert [] + trimmed == trimmed;
      } else if "id:" <= line {
        id := Some(Trim(line[3..]));
      }
      assert Scan(events, event, data, id) == OnLine(before, line);
      i := i + 1;
    }
    if (event != "" || data != "") && |events| < MAX_SSE_EVENTS {
      events := events + [RawSseEvent(event, data, id)];
    }
  }

  // Events that are out are never taken back.
  lemma {:induction false} EventsGrow(lines: seq<string>, a: Scan)
    ensures a.events <= ScanLines(lines, a).events
  {
    if lines != [] {
      EventsGrow(lines[1..], OnLine(a, lines[0]));
    }
  }

  // ---- how parsing distributes over the text ----

  lemma {:induction false} ScanAppend(first: seq<string>, second: seq<string>, a: Scan)
    ensures ScanLines(first + second, a) == ScanLines(second, ScanLines(first, a))
  {
    if first == [] {
      assert first + second == second;
    } else {
      assert (first + second)[1..] == first[1..] + second;
      ScanAppend(first[1..], second, OnLine(a, first[0]));
    }
  }

  // The first line of `x + "\n" + y` is decided by `x` alone.
  lemma FirstLine(x: string, y: string)
    ensures IndexOf(x + "\n" + y, '\n') == IndexOf(x, '\n')
    ensures IndexOf(x, '\n') < |x| ==>
              var k := IndexOf(x, '\n');
              var t := x + "\n" + y;
              t[..k] == x[..k] && t[k + 1..] == x[k + 1..] + "\n" + y
    ensures IndexOf(x, '\n') == |x| ==> (x + "\n" + y)[..|x|] == x && (x + "\n" + y)[|x| + 1..] == y
  {
    var k := IndexOf(x, '\n');
    IndexOfFinds(x, '\n');
    IndexOfIs(x[..k], (x + "\n" + y)[k..], '\n');
    assert x[..k] + (x + "\n" + y)[k..] == x + "\n" + y;
  }

  lemma {:induction false} LinesAppend(x: string, y: string)
    ensures Lines(x + "\n" + y) == Lines(x + "\n") + Lines(y)
    decreases |x|
  {
    hide Lines, IndexOf;
    var k := IndexOf(x, '\n');
    IndexOfFinds(x, '\n');
    if k < |x| {
      var line, tail := x[..k], x[k + 1..];
      assert x + "\n" + y == line + "\n" + (tail + "\n" + y);
      assert x + "\n" == line + "\n" + (tail + "\n");
      LinesHead(line, tail + "\n" + y);
      LinesHead(line, tail + "\n");
      LinesAppend(tail, y);
      AppendAssociates([ChompCr(line)], Lines(tail + "\n"), Lines(y));
    } else {
      assert x[..k] == x;
      LinesHead(x, y);
      LinesHead(x, "");
      NoLines();
      assert x + "\n" + "" == x + "\n" && [ChompCr(x)] + [] == [ChompCr(x)];
    }
  }

  lemma NoLines()
    ensures Lines("") == []
  {
  }

  // Every use of a line ignores a carriage return at its end.
  lemma OnLineIgnoresCr(a: Scan, line: string)
    ensures OnLine(a, line + "\r") == OnLine(a, line)
    ensures OnLine(a, ChompCr(line)) == OnLine(a, line)
  {
    CrAtEnd(a, line);
    if ChompCr(line) != line {
      CrAtEnd(a, ChompCr(line));
      assert ChompCr(line) + "\r" == line;
    }
  }

  lemma CrAtEnd(a: Scan, line: string)
    ensures OnLine(a, line + "\r") == OnLine(a, line)
  {
    var longer := line + "\r";
    TrimSnoc(line, '\r');
    FieldWithCr("event:", line);
    FieldWithCr("data:", line);
    FieldWithCr("id:", line);
  }

  lemma FieldWithCr(prefix: string, line: string)
    requires prefix != [] && prefix[|prefix| - 1] != '\r'
    ensures prefix <= line + "\r" <==> prefix <= line
    ensures prefix <= line ==> Trim((line + "\r")[|prefix|..]) == Trim(line[|prefix|..])
  {
    if prefix <= line {
      assert (line + "\r")[|prefix|..] == line[|prefix|..] + "\r";
      TrimSnoc(line[|prefix|..], '\r');
    }
  }

  lemma LinesHead(line: string, rest: string)
    requires '\n' !in line
    ensures Lines(line + "\n" + rest) == [ChompCr(line)] + Lines(rest)
  {
    FirstLine(line, rest);
    IndexOfIs(line, [], '\n');
    assert line + [] == line;
  }

  /** Dropping a carriage return in front of a line feed changes nothing. */
  lemma {:induction false} CrBeforeLf(x: string, y: string, a: Scan)
    ensures ScanLines(Lines(x + "\r\n" + y), a) == ScanLines(Lines(x + "\n" + y), a)
    decreases |x|
  {
    var k := IndexOf(x, '\n');
    IndexOfFinds(x, '\n');
    if k < |x| {
      var line, tail := x[..k], x[k + 1..];
      assert x + "\r\n" + y == line + "\n" + (tail + "\r\n" + y);
      assert x + "\n" + y == line + "\n" + (tail + "\n" + y);
      LinesHead(line, tail + "\r\n" + y);
      LinesHead(line, tail + "\n" + y);
      CrBeforeLf(tail, y, OnLine(a, ChompCr(line)));
    } else {
      assert x[..k] == x;
      assert x + "\r\n" + y == (x + "\r") + "\n" + y;
      LinesHead(x + "\r", y);
      LinesHead(x, y);
      assert ChompCr(x + "\r") == x;
      OnLineIgnoresCr(a, x);
    }
  }

  // `str::replace("\r\n", "\n")`
  function CrLfToLf(text: string): string {
    if |text| < 2 then text
    else if text[0] == '\r' && text[1] == '\n' then "\n" + CrLfToLf(text[2..])
    else [text[0]] + CrLfToLf(text[1..])
  }

  /** Normalising any piece of a text, wherever it was cut out, does not change its events. */
  lemma {:induction false} NormaliseAnywhere(x: string, piece: string, y: string)
    ensures AllEvents(x + CrLfToLf(piece) + y) == AllEvents(x + piece + y)
    decreases |piece|
  {
    if |piece| >= 2 {
      var crlf := piece[0] == '\r' && piece[1] == '\n';
      var head, kept := if crlf then piece[..2] else piece[..1], if crlf then "\n" else piece[..1];
      var rest := piece[|head|..];
      assert piece == head + rest && CrLfToLf(piece) == kept + CrLfToLf(rest);
      Regroup(x, kept, CrLfToLf(rest), y);
      NormaliseAnywhere(x + kept, rest, y);
      Regroup(x, kept, rest, y);
      Regroup(x, head, rest, y);
      if crlf {
        assert head == "\r\n";
        CrBeforeLf(x, rest + y, START);
      }
    }
  }

  lemma Regroup(x: string, head: string, rest: string, y: string)
    ensures x + (head + rest) + y == (x + head) + rest + y == x + head + (rest + y)
  {
  }

  // A line feed after the last line is absorbed by the blank line that follows.
  lemma {:induction false} TrailingLineFeed(x: string, a: Scan)
    ensures Blank(ScanLines(Lines(x + "\n"), a)) == Blank(ScanLines(Lines(x), a))
    decreases |x|
  {
    var k := IndexOf(x, '\n');
    FirstLine(x, "");
    assert x + "\n" + "" == x + "\n";
    if k < |x| {
      var tail := x[k + 1..];
      assert tail + "\n" + "" == tail + "\n";
      TrailingLineFeed(tail, OnLine(a, ChompCr(x[..k])));
    } else {
      assert Lines(x + "\n") == [ChompCr(x)] + Lines("");
      assert ScanLines(Lines(x + "\n"), a) == OnLine(a, ChompCr(x));
      OnLineIgnoresCr(a, x);
      if x != "" {
        assert ScanLines([x], a) == OnLine(a, x);
      }
    }
  }

  // Same field values, and `a` is ahead of `b` by the frames `ahead`. Ids are not compared.
  ghost predicate Ahead(a: Scan, b: Scan, ahead: seq<Frame>) {
    a.event == b.event && a.data == b.data && Frames(a.events) == ahead + Frames(b.events)
  }

  lemma BlankKeepsAhead(a: Scan, b: Scan, ahead: seq<Frame>)
    requires Ahead(a, b, ahead)
    ensures Ahead(Blank(a), Blank(b), ahead)
  {
    if a.event != "" || a.data != "" {
      var frame := Frame(a.event, a.data);
      assert Frames(Blank(a).events) == Frames(a.events) + [frame];
      assert Frames(Blank(b).events) == Frames(b.events) + [frame];
    }
  }

  lemma {:induction false} ScanKeepsAhead(lines: seq<string>, a: Scan, b: Scan, ahead: seq<Frame>)
    requires Ahead(a, b, ahead)
    ensures Ahead(ScanLines(lines, a), ScanLines(lines, b), ahead)
  {
    if lines != [] {
      BlankKeepsAhead(a, b, ahead);
      ScanKeepsAhead(lines[1..], OnLine(a, lines[0]), OnLine(b, lines[0]), ahead);
    }
  }

  // Up to the blank line the current event gets closed; the rest is read from there.
  lemma BlankLineCloses(x: string, y: string)
    ensures ScanLines(Lines(x + "\n\n" + y), START) == ScanLines(Lines(y), Blank(ScanLines(Lines(x), START)))
  {
    var before, after := Lines(x + "\n"), [""] + Lines(y);
    var scanned := ScanLines(before, START);
    calc {
      Lines(x + "\n\n" + y);
      { assert x + "\n" + ("\n" + y) == x + "\n\n" + y; }
      Lines(x + "\n" + ("\n" + y));
      { LinesAppend(x, "\n" + y); }
      before + Lines("\n" + y);
      { LinesHead("", y); assert "" + "\n" + y == "\n" + y; }
      before + after;
    }
    calc {
      ScanLines(before + after, START);
      { ScanAppend(before, after, START); }
      ScanLines(after, scanned);
      { assert after[1..] == Lines(y); }
      ScanLines(Lines(y), Blank(scanned));
      { TrailingLineFeed(x, START); }
      ScanLines(Lines(y), Blank(ScanLines(Lines(x), START)));
    }
  }

  /** A blank line cuts a text into two parts that can be parsed separately. */
  lemma SplitAtBlankLine(x: string, y: string)
    ensures Frames(AllEvents(x + "\n\n" + y)) == Frames(AllEvents(x)) + Frames(AllEvents(y))
  {
    BlankLineCloses(x, y);
    var closed := Blank(ScanLines(Lines(x), START));
    var ahead := Frames(AllEvents(x));
    assert ahead + Frames(START.events) == ahead;
    assert closed.event == "" && closed.data == "";
    ScanKeepsAhead(Lines(y), closed, START, ahead);
    BlankKeepsAhead(ScanLines(Lines(y), closed), ScanLines(Lines(y), START), ahead);
  }
}

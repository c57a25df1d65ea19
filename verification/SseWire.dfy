/** The wire format the SSE parser documents, written down as a printer, and the proof that
    the parser reads back exactly the events that were printed, ids included. */
module SseWire {
  import opened Text
  import opened SseFraming

  // Text made of complete lines.
  function Wire(lines: seq<string>): string {
    if lines == [] then "" else lines[0] + "\n" + Wire(lines[1..])
  }

  function DataLines(parts: seq<string>): seq<string> {
    if parts == [] then [] else ["data: " + parts[0]] + DataLines(parts[1..])
  }

  function DataPart(e: RawSseEvent): seq<string> {
    if e.data != "" then DataLines(SplitOn(e.data, '\n')) else []
  }

  // id, event type, one line per line of data, blank line.
  function EventLines(e: RawSseEvent): seq<string> {
    (if e.id.Some? then ["id: " + e.id.value] else [])
    + (if e.event != "" then ["event: " + e.event] else [])
    + DataPart(e)
    + [""]
  }

  function AllLines(events: seq<RawSseEvent>): seq<string> {
    if events == [] then [] else EventLines(events[0]) + AllLines(events[1..])
  }

  predicate ReadableValue(value: string) {
    Trimmed(value) && '\n' !in value
  }

  // Data made of trimmed lines that does not start with an empty one. The separator before the
  // last line is not counted against the limit.
  predicate ReadableData(data: string) {
    && (forall line | line in SplitOn(data, '\n') :: Trimmed(line))
    && (data != "" ==> data[0] != '\n')
    && Utf8Len(data) <= MAX_SSE_DATA_SIZE + (if '\n' in data then 1 else 0)
  }

  // The events the wire format can carry, as it turns out exactly: see `WireCarries`.
  predicate Printable(e: RawSseEvent) {
    && (e.event != "" || e.data != "")
    && ReadableValue(e.event) && ReadableData(e.data)
    && (e.id.Some? ==> ReadableValue(e.id.value))
  }

  lemma {:induction false} ScanWire(lines: seq<string>, a: Scan)
    requires forall line | line in lines :: '\n' !in line
    ensures ScanLines(Lines(Wire(lines)), a) == ScanLines(lines, a)
  {
    if lines != [] {
      LinesHead(lines[0], Wire(lines[1..]));
      OnLineIgnoresCr(a, lines[0]);
      ScanWire(lines[1..], OnLine(a, lines[0]));
    }
  }

  // A field line hands over its value.
  lemma FieldLine(a: Scan, name: string, value: string)
    requires name in ["event:", "data:", "id:"] && Trimmed(value)
    ensures Trim(name + " " + value) != ""
    ensures Trim((name + " " + value)[|name|..]) == value
  {
    var line := name + " " + value;
    assert !IsWhitespace(line[0]);
    assert TrimStart(line) == line;
    TrimEndShape(line);
    assert line[|name|..] == " " + value;
    assert (" " + value)[1..] == value;
    assert TrimStart(" " + value) == TrimStart(value);
    TrimmedIsFixed(value);
  }

  lemma {:induction false} Utf8LenAppend(s: string, t: string)
    ensures Utf8Len(s + t) == Utf8Len(s) + Utf8Len(t)
  {
    if s == [] {
      assert s + t == t;
    } else {
      assert (s + t)[1..] == s[1..] + t;
      Utf8LenAppend(s[1..], t);
    }
  }

  lemma OnDataLine(a: Scan, value: string)
    requires Trimmed(value) && Utf8Len(a.data) + Utf8Len(value) <= MAX_SSE_DATA_SIZE
    ensures OnLine(a, "data: " + value) == a.(data := if a.data == "" then value else a.data + "\n" + value)
  {
    FieldLine(a, "data:", value);
    assert "data:" + " " + value == "data: " + value;
  }

  lemma {:induction false} ScanData(parts: seq<string>, a: Scan)
    requires a.data != "" && parts != []
    requires forall p | p in parts :: Trimmed(p)
    requires Utf8Len(a.data + "\n" + Join(parts, '\n')) <= MAX_SSE_DATA_SIZE + 1
    ensures ScanLines(DataLines(parts), a) == a.(data := a.data + "\n" + Join(parts, '\n'))
  {
    var b := a.(data := a.data + "\n" + parts[0]);
    if |parts| == 1 {
      Utf8LenAppend(a.data + "\n", parts[0]);
      Utf8LenAppend(a.data, "\n");
      OnDataLine(a, parts[0]);
      assert DataLines(parts)[1..] == [];
    } else {
      var tail := Join(parts[1..], '\n');
      assert a.data + "\n" + Join(parts, '\n') == b.data + "\n" + tail;
      Utf8LenAppend(b.data, "\n" + tail);
      assert b.data + ("\n" + tail) == b.data + "\n" + tail;
      Utf8LenAppend(a.data + "\n", parts[0]);
      Utf8LenAppend(a.data, "\n");
      OnDataLine(a, parts[0]);
      assert DataLines(parts)[1..] == DataLines(parts[1..]);
      ScanData(parts[1..], b);
    }
  }

  // The first line of data that does not start with an empty line.
  lemma FirstDataLine(data: string)
    requires data != "" && ReadableData(data)
    ensures var parts := SplitOn(data, '\n');
            parts[0] != "" && Utf8Len(parts[0]) <= MAX_SSE_DATA_SIZE
            && (|parts| > 1 ==> '\n' in data)
            && data == if |parts| == 1 then parts[0] else parts[0] + "\n" + Join(parts[1..], '\n')
  {
    var parts := SplitOn(data, '\n');
    JoinSplit(data, '\n');
    SplitAlone(data, '\n');
    var first, rest := parts[0], data[|parts[0]|..];
    assert first + rest == data;
    Utf8LenAppend(first, rest);
    if |parts| > 1 {
      assert rest[0] == '\n';
    }
  }

  // The data lines of one event, read into an empty field.
  lemma ScanAllData(data: string, a: Scan)
    requires a.data == "" && data != "" && ReadableData(data)
    ensures ScanLines(DataLines(SplitOn(data, '\n')), a) == a.(data := data)
  {
    var parts := SplitOn(data, '\n');
    FirstDataLine(data);
    OnDataLine(a, parts[0]);
    var b, later := a.(data := parts[0]), DataLines(parts[1..]);
    assert ScanLines(DataLines(parts), a) == ScanLines(later, b) by {
      assert DataLines(parts)[1..] == later;
    }
    if |parts| > 1 {
      ScanData(parts[1..], b);
    }
  }

  lemma ScanId(e: RawSseEvent, a: Scan)
    requires Printable(e) && a.id == None
    ensures ScanLines(if e.id.Some? then ["id: " + e.id.value] else [], a) == a.(id := e.id)
  {
    if e.id.Some? {
      FieldLine(a, "id:", e.id.value);
      assert "id:" + " " + e.id.value == "id: " + e.id.value;
    }
  }

  lemma ScanType(e: RawSseEvent, a: Scan)
    requires Printable(e) && a.event == ""
    ensures ScanLines(if e.event != "" then ["event: " + e.event] else [], a) == a.(event := e.event)
  {
    if e.event != "" {
      FieldLine(a, "event:", e.event);
      assert "event:" + " " + e.event == "event: " + e.event;
    }
  }

  // An event whose data lines are read as `data`.
  lemma ScanEventAs(e: RawSseEvent, data: string, a: Scan)
    requires Printable(e.(data := data))
    requires a.event == "" && a.data == "" && a.id == None
    requires var c := a.(id := e.id, event := e.event); ScanLines(DataPart(e), c) == c.(data := data)
    ensures ScanLines(EventLines(e), a) == a.(events := a.events + [e.(data := data)])
  {
    var idLines := if e.id.Some? then ["id: " + e.id.value] else [];
    var typeLines := if e.event != "" then ["event: " + e.event] else [];
    var dataLines := DataPart(e);
    var b := a.(id := e.id);
    var c := b.(event := e.event);
    calc {
      ScanLines(EventLines(e), a);
      { ScanAppend(idLines + typeLines + dataLines, [""], a); }
      ScanLines([""], ScanLines(idLines + typeLines + dataLines, a));
      { ScanAppend(idLines + typeLines, dataLines, a); }
      ScanLines([""], ScanLines(dataLines, ScanLines(idLines + typeLines, a)));
      { ScanAppend(idLines, typeLines, a); ScanId(e.(data := data), a); ScanType(e.(data := data), b); }
      ScanLines([""], ScanLines(dataLines, c));
      ScanLines([""], c.(data := data));
      Blank(c.(data := data));
      a.(events := a.events + [e.(data := data)]);
    }
  }

  lemma ScanEvent(e: RawSseEvent, a: Scan)
    requires Printable(e)
    requires a.event == "" && a.data == "" && a.id == None
    ensures ScanLines(EventLines(e), a) == a.(events := a.events + [e])
  {
    if e.data != "" {
      ScanAllData(e.data, a.(id := e.id, event := e.event));
    }
    ScanEventAs(e, e.data, a);
  }

  lemma ScanEventThen(e: RawSseEvent, rest: seq<string>, a: Scan)
    requires Printable(e)
    requires a.event == "" && a.data == "" && a.id == None
    ensures ScanLines(EventLines(e) + rest, a) == ScanLines(rest, a.(events := a.events + [e]))
  {
    ScanEvent(e, a);
    ScanAppend(EventLines(e), rest, a);
  }

  lemma {:induction false} ScanAllLines(events: seq<RawSseEvent>, a: Scan)
    requires forall e | e in events :: Printable(e)
    requires a.event == "" && a.data == "" && a.id == None
    ensures ScanLines(AllLines(events), a) == a.(events := a.events + events)
  {
    if events == [] {
      assert a.events + events == a.events;
    } else {
      var first, rest := events[0], events[1..];
      var b := a.(events := a.events + [first]);
      calc {
        ScanLines(AllLines(events), a);
        { ScanEventThen(first, AllLines(rest), a); }
        ScanLines(AllLines(rest), b);
        { ScanAllLines(rest, b); }
        b.(events := b.events + rest);
        { assert b.events + rest == a.events + events; }
        a.(events := a.events + events);
      }
    }
  }

  lemma {:induction false} DataLinesStayInLine(parts: seq<string>)
    requires forall p | p in parts :: '\n' !in p
    ensures forall line | line in DataLines(parts) :: '\n' !in line
  {
    if parts != [] {
      DataLinesStayInLine(parts[1..]);
    }
  }

  lemma LinesStayInLine(e: RawSseEvent)
    requires '\n' !in e.event && (e.id.Some? ==> '\n' !in e.id.value)
    ensures forall line | line in EventLines(e) :: '\n' !in line
  {
    SplitParts(e.data, '\n');
    DataLinesStayInLine(SplitOn(e.data, '\n'));
    assert e.id.Some? ==> '\n' !in "id: " + e.id.value;
    assert '\n' !in "event: " + e.event;
  }

  lemma {:induction false} AllLinesStayInLine(events: seq<RawSseEvent>)
    requires forall e | e in events :: Printable(e)
    ensures forall line | line in AllLines(events) :: '\n' !in line
  {
    if events != [] {
      AllLinesStayInLine(events[1..]);
      assert Printable(events[0]);
      LinesStayInLine(events[0]);
    }
  }

  /** Parsing what the wire format prints gives back the events, in order and complete. */
  lemma ParsePrinted(events: seq<RawSseEvent>)
    requires forall e | e in events :: Printable(e)
    ensures AllEvents(Wire(AllLines(events))) == events
  {
    AllLinesStayInLine(events);
    ScanWire(AllLines(events), START);
    ScanAllLines(events, START);
    assert [] + events == events;
  }

  // ---- what parsing can produce ----

  predicate ReadableScan(a: Scan) {
    && (forall e | e in a.events :: Printable(e))
    && ReadableValue(a.event) && ReadableData(a.data)
    && (a.id.Some? ==> ReadableValue(a.id.value))
  }

  lemma TrimIsReadable(value: string)
    requires '\n' !in value
    ensures ReadableValue(Trim(value))
  {
    TrimShape(value);
  }

  // One more line of data.
  lemma DataStaysReadable(data: string, value: string)
    requires ReadableData(data) && ReadableValue(value)
    requires Utf8Len(data) + Utf8Len(value) <= MAX_SSE_DATA_SIZE
    ensures ReadableData(if data == "" then value else data + "\n" + value)
  {
    SplitAlone(value, '\n');
    if data != "" {
      var longer := data + "\n" + value;
      SplitSnoc(data, value, '\n');
      Utf8LenAppend(data + "\n", value);
      Utf8LenAppend(data, "\n");
      assert longer[|data|] == '\n' && longer[0] == data[0];
    } else if value != "" {
      assert value[0] in value;
    }
  }

  lemma LineStaysReadable(a: Scan, line: string)
    requires ReadableScan(a) && '\n' !in line
    ensures ReadableScan(OnLine(a, line))
  {
    assert SplitOn("", '\n') == [""];
    if Trim(line) == "" {
    } else if "event:" <= line {
      TrimIsReadable(line[6..]);
    } else if "data:" <= line {
      var value := Trim(line[5..]);
      TrimIsReadable(line[5..]);
      if Utf8Len(a.data) + Utf8Len(value) <= MAX_SSE_DATA_SIZE {
        DataStaysReadable(a.data, value);
      }
    } else if "id:" <= line {
      TrimIsReadable(line[3..]);
    }
  }

  lemma {:induction false} LinesHaveNoLineFeed(text: string)
    ensures forall line | line in Lines(text) :: '\n' !in line
    decreases |text|
  {
    if text != "" {
      var k := IndexOf(text, '\n');
      IndexOfFinds(text, '\n');
      if k == |text| {
        assert text[..k] == text;
      } else {
        LinesHaveNoLineFeed(text[k + 1..]);
      }
    }
  }

  lemma {:induction false} ScanStaysReadable(lines: seq<string>, a: Scan)
    requires ReadableScan(a) && forall line | line in lines :: '\n' !in line
    ensures ReadableScan(ScanLines(lines, a))
  {
    if lines != [] {
      LineStaysReadable(a, lines[0]);
      ScanStaysReadable(lines[1..], OnLine(a, lines[0]));
    }
  }

  /** Whatever the text, the events parsed from it are among those the wire format can carry. */
  lemma ParsedIsPrintable(text: string)
    ensures forall e | e in AllEvents(text) :: Printable(e)
  {
    assert SplitOn("", '\n') == [""];
    LinesHaveNoLineFeed(text);
    ScanStaysReadable(Lines(text), START);
  }

  /** So the wire format carries exactly the printable events. */
  lemma WireCarries(events: seq<RawSseEvent>)
    ensures AllEvents(Wire(AllLines(events))) == events <==> forall e | e in events :: Printable(e)
  {
    ParsedIsPrintable(Wire(AllLines(events)));
    if forall e | e in events :: Printable(e) {
      ParsePrinted(events);
    }
  }

  // An empty data line in front of the data adds nothing.
  lemma ScanLeadingEmptyLine(data: string, c: Scan)
    requires c.data == "" && data != "" && ReadableData(data)
    ensures ScanLines(DataLines(SplitOn("\n" + data, '\n')), c) == c.(data := data)
  {
    var parts, empty := SplitOn(data, '\n'), "data: " + "";
    assert "" + ['\n'] + data == "\n" + data;
    SplitCons("", data, '\n');
    var lines := [empty] + DataLines(parts);
    assert ([""] + parts)[1..] == parts && lines[1..] == DataLines(parts);
    assert Utf8Len("") == 0;
    OnDataLine(c, "");
    ScanAllData(data, c);
    assert ScanLines(lines, c) == ScanLines(DataLines(parts), c);
  }

  /** An empty line at the start of the data is lost; what is left of the event arrives. */
  lemma LeadingEmptyLineIsLost(e: RawSseEvent)
    requires Printable(e) && e.data != ""
    ensures var longer := e.(data := "\n" + e.data);
            !Printable(longer) && AllEvents(Wire(AllLines([longer]))) == [e]
  {
    var longer := e.(data := "\n" + e.data);
    ScanLeadingEmptyLine(e.data, START.(id := e.id, event := e.event));
    ScanEventAs(longer, e.data, START);
    assert AllLines([longer]) == EventLines(longer) by {
      assert [longer][1..] == [] && EventLines(longer) + [] == EventLines(longer);
    }
    LinesStayInLine(longer);
    ScanWire(EventLines(longer), START);
    assert START.events + [e] == [e];
  }
}

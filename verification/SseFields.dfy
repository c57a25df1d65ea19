/** What the lines of an SSE text mean, told without the parser: fields with any white space after
    the colon, in any order and repeated, among lines that are no fields. */
module SseFields {
  import opened Text
  import opened StreamEvents
  import opened SseFraming
  import opened SseWire

  // A line that is neither blank nor one of the three fields, a comment or `retry:` for example.
  predicate IsIgnored(line: string) {
    Trim(line) != "" && !("event:" <= line) && !("data:" <= line) && !("id:" <= line)
  }

  // ---- ignored lines ----

  /** A line that is no field changes nothing, wherever it stands. */
  lemma IgnoredLineChangesNothing(x: string, line: string, y: string)
    requires '\n' !in line && IsIgnored(ChompCr(line))
    ensures AllEvents(x + "\n" + line + "\n" + y) == AllEvents(x + "\n" + y)
    ensures AllEvents(line + "\n" + y) == AllEvents(y)
  {
    LinesHead(line, y);
    var before, seen := Lines(x + "\n"), ScanLines(Lines(x + "\n"), START);
    calc {
      ScanLines(Lines(x + "\n" + line + "\n" + y), START);
      { assert x + "\n" + line + "\n" + y == x + "\n" + (line + "\n" + y); LinesAppend(x, line + "\n" + y); }
      ScanLines(before + Lines(line + "\n" + y), START);
      { ScanAppend(before, Lines(line + "\n" + y), START); }
      ScanLines(Lines(line + "\n" + y), seen);
      { assert ([ChompCr(line)] + Lines(y))[1..] == Lines(y); }
      ScanLines(Lines(y), seen);
      { ScanAppend(before, Lines(y), START); LinesAppend(x, y); }
      ScanLines(Lines(x + "\n" + y), START);
    }
    assert ([ChompCr(line)] + Lines(y))[1..] == Lines(y);
  }

  // ---- the fields of a block ----

  // The values of a field, in order, without the white space around them.
  function Values(name: string, lines: seq<string>): seq<string> {
    if lines == [] then []
    else
      var n := |lines| - 1;
      Values(name, lines[..n]) + if name <= lines[n] then [Trim(lines[n][|name|..])] else []
  }

  function LastOf(values: seq<string>): Option<string> {
    if values == [] then None else Some(values[|values| - 1])
  }

  function WithoutLeadingEmpty(values: seq<string>): seq<string> {
    if values != [] && values[0] == "" then WithoutLeadingEmpty(values[1..]) else values
  }

  // The last type, all data joined by line feeds, and the last id of some lines.
  function TypeIn(lines: seq<string>): string {
    OrElse(LastOf(Values("event:", lines)), "")
  }

  function DataIn(lines: seq<string>): string {
    Join(WithoutLeadingEmpty(Values("data:", lines)), '\n')
  }

  function IdIn(lines: seq<string>): Option<string> {
    LastOf(Values("id:", lines))
  }

  lemma ValuesSnoc(name: string, lines: seq<string>, line: string)
    ensures Values(name, lines + [line])
         == if name <= line then Values(name, lines) + [Trim(line[|name|..])] else Values(name, lines)
  {
    assert (lines + [line])[..|lines|] == lines;
  }

  lemma {:induction false} LeadingEmptySnoc(values: seq<string>, v: string)
    ensures WithoutLeadingEmpty(values + [v])
         == if WithoutLeadingEmpty(values) == [] && v == "" then [] else WithoutLeadingEmpty(values) + [v]
  {
    if values == [] {
      assert [] + [v] == [v] && [v][1..] == [];
    } else {
      assert (values + [v])[1..] == values[1..] + [v];
      LeadingEmptySnoc(values[1..], v);
    }
  }

  // What is left starts with a value that is not empty, so joining it does not give "".
  lemma {:induction false} FirstIsNotEmpty(values: seq<string>)
    ensures WithoutLeadingEmpty(values) == [] || WithoutLeadingEmpty(values)[0] != ""
  {
    if values != [] {
      FirstIsNotEmpty(values[1..]);
    }
  }

  // One more value of data.
  lemma DataSnoc(values: seq<string>, v: string)
    ensures var data := Join(WithoutLeadingEmpty(values), '\n');
            Join(WithoutLeadingEmpty(values + [v]), '\n') == if data == "" then v else data + "\n" + v
    ensures Join(WithoutLeadingEmpty(values), '\n') == "" <==> WithoutLeadingEmpty(values) == []
  {
    var kept := WithoutLeadingEmpty(values);
    LeadingEmptySnoc(values, v);
    FirstIsNotEmpty(values);
    if kept == [] {
      assert [] + [v] == [v];
    } else {
      JoinSnoc(kept, v, '\n');
    }
  }

  ghost predicate NoBlanks(lines: seq<string>) {
    forall line | line in lines :: Trim(line) != ""
  }

  // The fields collected from lines that are not blank, as long as the data is within the limit.
  lemma {:induction false} ScanBlock(lines: seq<string>, a: Scan)
    requires NoBlanks(lines) && a.event == "" && a.data == "" && a.id == None
    requires Utf8Len(DataIn(lines)) <= MAX_SSE_DATA_SIZE
    ensures ScanLines(lines, a) == Scan(a.events, TypeIn(lines), DataIn(lines), IdIn(lines))
  {
    if lines != [] {
      var before, line := lines[..|lines| - 1], lines[|lines| - 1];
      assert lines == before + [line];
      BlockSnoc(before, line);
      ScanBlock(before, a);
      ScanAppend(before, [line], a);
      assert [line][1..] == [];
    }
  }

  lemma BlockSnoc(before: seq<string>, line: string)
    ensures TypeIn(before + [line]) == if "event:" <= line then Trim(line[6..]) else TypeIn(before)
    ensures IdIn(before + [line]) == if "id:" <= line then Some(Trim(line[3..])) else IdIn(before)
    ensures DataIn(before + [line])
         == if !("data:" <= line) then DataIn(before)
            else if DataIn(before) == "" then Trim(line[5..])
            else DataIn(before) + "\n" + Trim(line[5..])
    ensures Utf8Len(DataIn(before)) <= Utf8Len(DataIn(before + [line]))
    ensures "data:" <= line ==> Utf8Len(DataIn(before)) + Utf8Len(Trim(line[5..])) <= Utf8Len(DataIn(before + [line]))
  {
    ValuesSnoc("event:", before, line);
    ValuesSnoc("data:", before, line);
    ValuesSnoc("id:", before, line);
    if "data:" <= line {
      var data, v := DataIn(before), Trim(line[5..]);
      DataSnoc(Values("data:", before), v);
      Utf8LenAppend(data + "\n", v);
      Utf8LenAppend(data, "\n");
    }
  }

  // ---- what comes after a block ----

  // Events that are out already stay in front.
  lemma {:induction false} ScanBehind(lines: seq<string>, out: seq<RawSseEvent>, a: Scan)
    ensures ScanLines(lines, a.(events := out + a.events))
         == ScanLines(lines, a).(events := out + ScanLines(lines, a).events)
  {
    if lines != [] {
      var b := OnLine(a, lines[0]);
      if Trim(lines[0]) == "" && (a.event != "" || a.data != "") {
        AppendAssociates(out, a.events, [RawSseEvent(a.event, a.data, a.id)]);
      }
      assert OnLine(a.(events := out + a.events), lines[0]) == b.(events := out + b.events);
      ScanBehind(lines[1..], out, b);
    }
  }

  lemma BlankBehind(lines: seq<string>, out: seq<RawSseEvent>)
    ensures Blank(ScanLines(lines, START.(events := out))).events == out + Blank(ScanLines(lines, START)).events
  {
    assert out + START.events == out;
    ScanBehind(lines, out, START);
    var t := ScanLines(lines, START);
    AppendAssociates(out, t.events, [RawSseEvent(t.event, t.data, t.id)]);
  }

  ghost predicate InLine(lines: seq<string>) {
    forall line | line in lines :: '\n' !in line
  }

  // A line that only says what the id is.
  function IdLine(id: Option<string>): seq<string> {
    if id.Some? then ["id:" + id.value] else []
  }

  lemma {:induction false} IdIsReadable(lines: seq<string>)
    requires InLine(lines)
    ensures IdIn(lines).Some? ==> ReadableValue(IdIn(lines).value)
  {
    if lines != [] {
      hide IdIn, Trim;
      var before, line := lines[..|lines| - 1], lines[|lines| - 1];
      assert lines == before + [line] && line in lines;
      BlockSnoc(before, line);
      IdIsReadable(before);
      if "id:" <= line {
        TrimIsReadable(line[3..]);
      }
    } else {
      assert IdIn([]) == None;
    }
  }

  lemma IdIsTrimmed(lines: seq<string>)
    requires InLine(lines)
    ensures IdIn(lines).Some? ==> Trimmed(IdIn(lines).value)
    ensures InLine(IdLine(IdIn(lines)))
  {
    hide IdIn;
    IdIsReadable(lines);
    if IdIn(lines).Some? {
      var v := IdIn(lines).value;
      assert '\n' !in "id:" + v;
    }
  }

  lemma ScanIdLine(id: Option<string>, after: seq<string>, a: Scan)
    requires (id.Some? ==> Trimmed(id.value)) && a.id == None
    ensures ScanLines(IdLine(id) + after, a) == ScanLines(after, a.(id := id))
  {
    if id.Some? {
      var line := "id:" + id.value;
      assert line[3..] == id.value && ([line] + after)[1..] == after;
      TrimmedIsFixed(id.value);
      assert line[0] == 'i' && TrimStart(line) == line;
      TrimEndShape(line);
    } else {
      assert [] + after == after;
    }
  }

  // All of `lines` are read, then `after`.
  lemma ReadInParts(lines: seq<string>, after: seq<string>)
    requires InLine(lines) && InLine(after)
    ensures AllEvents(Wire(lines + after)) == Blank(ScanLines(after, ScanLines(lines, START))).events
  {
    ScanWire(lines + after, START);
    ScanAppend(lines, after, START);
  }

  /** A block of lines, none of them blank, and the blank line that ends it: the event has the last
      type, all lines of data joined, and the last id, in whatever order the fields come, however
      often, and whatever else is in between. What follows is read as if it came first. With
      neither type nor data there is no event, and the id is kept for what follows. */
  lemma BlockIsRead(lines: seq<string>, blank: string, after: seq<string>)
    requires NoBlanks(lines) && Trim(blank) == "" && InLine(lines + [blank]) && InLine(after)
    requires Utf8Len(DataIn(lines)) <= MAX_SSE_DATA_SIZE
    ensures AllEvents(Wire(lines + [blank] + after))
         == if TypeIn(lines) == "" && DataIn(lines) == "" then AllEvents(Wire(IdLine(IdIn(lines)) + after))
            else [RawSseEvent(TypeIn(lines), DataIn(lines), IdIn(lines))] + AllEvents(Wire(after))
  {
    hide TypeIn, DataIn, IdIn, Wire, AllEvents;
    assert forall line | line in lines :: line in lines + [blank];
    var event := RawSseEvent(TypeIn(lines), DataIn(lines), IdIn(lines));
    var seen := ScanLines(lines, START);
    ScanBlock(lines, START);
    ScanAppend(lines, [blank], START);
    assert [blank][1..] == [];
    ReadInParts(lines + [blank], after);
    if TypeIn(lines) == "" && DataIn(lines) == "" {
      IdIsTrimmed(lines);
      ScanIdLine(IdIn(lines), after, START);
      ReadInParts([], IdLine(IdIn(lines)) + after);
      assert [] + (IdLine(IdIn(lines)) + after) == IdLine(IdIn(lines)) + after;
    } else {
      assert [] + [event] == [event];
      BlankBehind(after, [event]);
      ReadInParts([], after);
      assert [] + after == after;
    }
  }

  /** The end of the text ends a block as well. */
  lemma LastBlockIsRead(lines: seq<string>)
    requires NoBlanks(lines) && InLine(lines)
    requires Utf8Len(DataIn(lines)) <= MAX_SSE_DATA_SIZE
    ensures AllEvents(Wire(lines))
         == if TypeIn(lines) == "" && DataIn(lines) == "" then []
            else [RawSseEvent(TypeIn(lines), DataIn(lines), IdIn(lines))]
  {
    ScanWire(lines, START);
    ScanBlock(lines, START);
  }

  /** Data that grows too large takes the type and the data collected so far with it, not the id. */
  lemma OversizedDataIsDropped(lines: seq<string>, value: string, after: seq<string>)
    requires NoBlanks(lines) && InLine(lines) && '\n' !in value && InLine(after)
    requires Utf8Len(DataIn(lines)) <= MAX_SSE_DATA_SIZE
    requires Utf8Len(DataIn(lines)) + Utf8Len(Trim(value)) > MAX_SSE_DATA_SIZE
    ensures AllEvents(Wire(lines + ["data:" + value] + after)) == AllEvents(Wire(IdLine(IdIn(lines)) + after))
  {
    hide TypeIn, DataIn, IdIn, IdLine, Wire, AllEvents, ScanLines;
    ScanOversized(lines, value);
    ReadInParts(lines + ["data:" + value], after);
    IdIsTrimmed(lines);
    ScanIdLine(IdIn(lines), after, START);
    ReadInParts([], IdLine(IdIn(lines)) + after);
    assert [] + (IdLine(IdIn(lines)) + after) == IdLine(IdIn(lines)) + after;
    NothingScanned(START);
  }

  lemma NothingScanned(a: Scan)
    ensures ScanLines([], a) == a
  {
  }

  lemma ScanOversized(lines: seq<string>, value: string)
    requires NoBlanks(lines) && Utf8Len(DataIn(lines)) <= MAX_SSE_DATA_SIZE
    requires Utf8Len(DataIn(lines)) + Utf8Len(Trim(value)) > MAX_SSE_DATA_SIZE
    ensures ScanLines(lines + ["data:" + value], START) == START.(id := IdIn(lines))
  {
    hide TypeIn, DataIn, IdIn;
    var line := "data:" + value;
    assert line[5..] == value && line[0] == 'd';
    NotBlank(line);
    ScanBlock(lines, START);
    ScanAppend(lines, [line], START);
    assert [line][1..] == [];
  }

  /** One field alone: white space after the colon may be there or not. */
  lemma FieldsAreRead(value: string)
    requires '\n' !in value && Trim(value) != "" && Utf8Len(Trim(value)) <= MAX_SSE_DATA_SIZE
    ensures AllEvents("data:" + value + "\n\n") == [RawSseEvent("", Trim(value), None)]
    ensures AllEvents("event:" + value + "\n\n") == [RawSseEvent(Trim(value), "", None)]
    ensures AllEvents("id:" + value + "\ndata:" + value + "\n\n") == [RawSseEvent("", Trim(value), Some(Trim(value)))]
  {
    hide AllEvents, Trim, TypeIn, DataIn, IdIn, NoBlanks, InLine, Utf8Len;
    DataField(value);
    EventField(value);
    IdField(value);
    OneFieldAlone("data:" + value);
    NoData();
    OneFieldAlone("event:" + value);
    IdThenData("id:" + value, "data:" + value, value);
    assert "id:" + value + "\n" + ("data:" + value) + "\n\n" == "id:" + value + "\ndata:" + value + "\n\n";
  }

  lemma NoData()
    ensures Utf8Len("") <= MAX_SSE_DATA_SIZE
  {
  }

  lemma OneFieldAlone(line: string)
    requires NoBlanks([line]) && InLine([line]) && Utf8Len(DataIn([line])) <= MAX_SSE_DATA_SIZE
    ensures AllEvents(line + "\n\n")
         == if TypeIn([line]) == "" && DataIn([line]) == "" then []
            else [RawSseEvent(TypeIn([line]), DataIn([line]), IdIn([line]))]
  {
    hide TypeIn, DataIn, IdIn, AllEvents;
    BlockAlone([line]);
    WireOfOne(line);
    assert line + "\n" + "\n" == line + "\n\n";
  }

  lemma IdThenData(id: string, data: string, value: string)
    requires NoBlanks([id]) && InLine([id]) && TypeIn([id]) == "" && DataIn([id]) == "" && IdIn([id]) == Some(Trim(value))
    requires NoBlanks([data]) && InLine([data]) && "data:" <= data && data[5..] == value
    requires Trim(value) != "" && Utf8Len(Trim(value)) <= MAX_SSE_DATA_SIZE
    ensures AllEvents(id + "\n" + data + "\n\n") == [RawSseEvent("", Trim(value), Some(Trim(value)))]
  {
    hide AllEvents, Trim, TypeIn, DataIn, IdIn, Utf8Len;
    var lines := [id] + [data];
    assert data[0] == 'd';
    BlockSnoc([id], data);
    assert forall line | line in lines :: line in [id] || line in [data];
    assert TypeIn(lines) == "" && DataIn(lines) == Trim(value) && IdIn(lines) == Some(Trim(value));
    BlockAlone(lines);
    WireOfOne(data);
    assert lines[1..] == [data];
    assert Wire(lines) + "\n" == id + "\n" + data + "\n\n";
  }

  // What one line says.
  lemma OneLine(line: string)
    requires line != "" && !IsWhitespace(line[0]) && '\n' !in line
    ensures NoBlanks([line]) && InLine([line])
    ensures TypeIn([line]) == if "event:" <= line then Trim(line[6..]) else ""
    ensures DataIn([line]) == if "data:" <= line then Trim(line[5..]) else ""
    ensures IdIn([line]) == if "id:" <= line then Some(Trim(line[3..])) else None
  {
    hide TypeIn, DataIn, IdIn;
    NotBlank(line);
    BlockSnoc([], line);
    assert [] + [line] == [line];
    NothingIn();
  }

  lemma NothingIn()
    ensures TypeIn([]) == "" && DataIn([]) == "" && IdIn([]) == None
  {
  }

  lemma NotBlank(line: string)
    requires line != "" && !IsWhitespace(line[0])
    ensures Trim(line) != ""
  {
    TrimEndShape(line);
  }

  lemma DataField(value: string)
    requires '\n' !in value
    ensures var line := "data:" + value;
            NoBlanks([line]) && InLine([line]) && "data:" <= line && line[5..] == value
            && TypeIn([line]) == "" && DataIn([line]) == Trim(value) && IdIn([line]) == None
  {
    hide TypeIn, DataIn, IdIn, NoBlanks, InLine, Trim;
    var line := "data:" + value;
    assert line[0] == 'd' && line[5..] == value;
    OneLine(line);
  }

  lemma EventField(value: string)
    requires '\n' !in value
    ensures var line := "event:" + value;
            NoBlanks([line]) && InLine([line])
            && TypeIn([line]) == Trim(value) && DataIn([line]) == "" && IdIn([line]) == None
  {
    hide TypeIn, DataIn, IdIn, NoBlanks, InLine, Trim;
    var line := "event:" + value;
    assert line[0] == 'e' && line[6..] == value;
    OneLine(line);
  }

  lemma IdField(value: string)
    requires '\n' !in value
    ensures var line := "id:" + value;
            NoBlanks([line]) && InLine([line])
            && TypeIn([line]) == "" && DataIn([line]) == "" && IdIn([line]) == Some(Trim(value))
  {
    hide TypeIn, DataIn, IdIn, NoBlanks, InLine, Trim;
    var line := "id:" + value;
    assert line[0] == 'i' && line[3..] == value;
    OneLine(line);
  }

  lemma WireOfOne(line: string)
    ensures Wire([line]) == line + "\n"
  {
    assert [line][1..] == [];
  }

  // A block with a blank line and nothing after it.
  lemma BlockAlone(lines: seq<string>)
    requires NoBlanks(lines) && InLine(lines) && Utf8Len(DataIn(lines)) <= MAX_SSE_DATA_SIZE
    ensures AllEvents(Wire(lines) + "\n")
         == if TypeIn(lines) == "" && DataIn(lines) == "" then []
            else [RawSseEvent(TypeIn(lines), DataIn(lines), IdIn(lines))]
  {
    hide TypeIn, DataIn, IdIn;
    TrailingBlank(Wire(lines));
    LastBlockIsRead(lines);
  }

  // A line feed at the end of a text is a blank line or ends its last line.
  lemma TrailingBlank(text: string)
    ensures AllEvents(text + "\n") == AllEvents(text)
  {
    TrailingLineFeed(text, START);
  }
}

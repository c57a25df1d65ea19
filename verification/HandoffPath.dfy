/** Paths into JSON outputs, as handoff conditions write them: keys separated by dots, array
    positions and the wildcard in brackets. */
module HandoffPath {
  import opened Text

  datatype Segment = Key(key: string) | Index(position: nat) | Any

  predicate Special(c: char) {
    c == '.' || c == '[' || c == ']'
  }

  // What closing a bracket makes of its contents; anything malformed is dropped.
  function Bracketed(current: string): seq<Segment> {
    if current == "any" then [Any]
    else
      var i := ParseUsize(current);
      if i.Some? then [Index(i.value)] else []
  }

  function Pending(current: string): seq<Segment> {
    if current == "" then [] else [Key(current)]
  }

  // The segments of the rest of a path, with `current` collected so far.
  function ScanPath(path: string, current: string): seq<Segment>
    decreases |path|
  {
    if path == "" then Pending(current)
    else if path[0] == '.' || path[0] == '[' then Pending(current) + ScanPath(path[1..], "")
    else if path[0] == ']' then Bracketed(current) + ScanPath(path[1..], "")
    else ScanPath(path[1..], current + [path[0]])
  }

  function SegmentsOf(path: string): seq<Segment> {
    ScanPath(path, "")
  }

  // One character of a scan, with the segments found before it.
  lemma ScanStep(path: string, i: nat, current: string, segments: seq<Segment>)
    requires i < |path|
    ensures var rest := path[i + 1..];
            segments + ScanPath(path[i..], current)
            == if path[i] == '.' || path[i] == '[' then segments + Pending(current) + ScanPath(rest, "")
               else if path[i] == ']' then segments + Bracketed(current) + ScanPath(rest, "")
               else segments + ScanPath(rest, current + [path[i]])
  {
    assert path[i..][1..] == path[i + 1..];
    AppendAssociates(segments, Pending(current), ScanPath(path[i + 1..], ""));
    AppendAssociates(segments, Bracketed(current), ScanPath(path[i + 1..], ""));
  }

  lemma NothingLeft(current: string)
    ensures ScanPath("", current) == Pending(current)
  {
  }

  method ParsePath(path: string) returns (segments: seq<Segment>)
    ensures segments == SegmentsOf(path)
  {
    hide ScanPath;
    segments := [];
    var current := "";
    var i := 0;
    while i < |path|
      invariant 0 <= i <= |path|
      invariant segments + ScanPath(path[i..], current) == SegmentsOf(path)
    {
      var ch := path[i];
      ScanStep(path, i, current, segments);
      assert segments + Pending(current) == if current != "" then segments + [Key(current)] else segments;
      if ch == '.' || ch == '[' {
        if current != "" {
          segments := segments + [Key(current)];
          current := "";
        }
      } else if ch == ']' {
        if current == "any" {
          segments := segments + [Any];
        } else {
          var index := ParseUsize(current);
          if index.Some? {
            segments := segments + [Index(index.value)];
          }
        }
        current := "";
      } else {
        current := current + [ch];
      }
      i := i + 1;
    }
    assert path[i..] == "";
    NothingLeft(current);
    if current != "" {
      segments := segments + [Key(current)];
    }
  }

  // ---- printing ----

  function Piece(path: string, segment: Segment): string {
    match segment
    case Key(k) => (if path != "" then "." else "") + k
    case Index(i) => "[" + ToDecimal(i) + "]"
    case Any => "[any]"
  }

  function RebuildOnto(path: string, segments: seq<Segment>): string
    decreases |segments|
  {
    if segments == [] then path else RebuildOnto(path + Piece(path, segments[0]), segments[1..])
  }

  function Rebuild(segments: seq<Segment>): string {
    RebuildOnto("", segments)
  }

  // ---- round trips ----

  // Segments a path can express.
  predicate Expressible(segment: Segment) {
    match segment
    case Key(k) => k != "" && forall c | c in k :: !Special(c)
    case Index(i) => i < USIZE_BOUND
    case Any => true
  }

  lemma {:induction false} ScanIsExpressible(path: string, current: string)
    requires forall c | c in current :: !Special(c)
    ensures forall s | s in ScanPath(path, current) :: Expressible(s)
    decreases |path|
  {
    if path != "" {
      if Special(path[0]) {
        ScanIsExpressible(path[1..], "");
      } else {
        ScanIsExpressible(path[1..], current + [path[0]]);
      }
    }
  }

  // Ordinary characters are collected.
  lemma {:induction false} ScanPlain(plain: string, rest: string, current: string)
    requires forall c | c in plain :: !Special(c)
    ensures ScanPath(plain + rest, current) == ScanPath(rest, current + plain)
    decreases |plain|
  {
    if plain == "" {
      assert plain + rest == rest && current + plain == current;
    } else {
      assert !Special(plain[0]);
      assert (plain + rest)[1..] == plain[1..] + rest;
      ScanPlain(plain[1..], rest, current + [plain[0]]);
      assert current + [plain[0]] + plain[1..] == current + plain;
    }
  }

  // What printing continues with once there is something before it.
  function Continuation(segments: seq<Segment>): string
    decreases |segments|
  {
    if segments == [] then "" else Piece("x", segments[0]) + Continuation(segments[1..])
  }

  lemma {:induction false} RebuildIsContinuation(path: string, segments: seq<Segment>)
    requires path != ""
    ensures RebuildOnto(path, segments) == path + Continuation(segments)
    decreases |segments|
  {
    if segments == [] {
      assert path + "" == path;
    } else {
      var piece := Piece(path, segments[0]);
      assert piece == Piece("x", segments[0]);
      var rest := Continuation(segments[1..]);
      calc {
        RebuildOnto(path, segments);
        RebuildOnto(path + piece, segments[1..]);
        { RebuildIsContinuation(path + piece, segments[1..]); }
        path + piece + rest;
        { AppendAssociates(path, piece, rest); }
        path + (piece + rest);
        path + Continuation(segments);
      }
    }
  }

  // A dot or an opening bracket, or the end, completes a key.
  lemma KeyComplete(rest: string, key: string)
    requires key != "" && (rest == "" || rest[0] == '.' || rest[0] == '[')
    ensures ScanPath(rest, key) == [Key(key)] + ScanPath(rest, "")
  {
    if rest == "" {
      assert [Key(key)] + [] == [Key(key)];
    } else {
      assert [] + ScanPath(rest[1..], "") == ScanPath(rest[1..], "");
    }
  }

  lemma ContinuationStarts(segments: seq<Segment>)
    ensures var c := Continuation(segments); c == "" || c[0] == '.' || c[0] == '['
  {
  }

  // One bracketed piece and what follows it.
  lemma ScanBrackets(inner: string, rest: string)
    requires forall c | c in inner :: !Special(c)
    ensures ScanPath("[" + inner + "]" + rest, "") == Bracketed(inner) + ScanPath(rest, "")
  {
    var text := "[" + inner + "]" + rest;
    assert text[1..] == inner + ("]" + rest);
    assert ScanPath(text, "") == [] + ScanPath(text[1..], "");
    ScanPlain(inner, "]" + rest, "");
    assert "" + inner == inner;
    assert ("]" + rest)[1..] == rest;
  }

  lemma BracketedIndex(i: nat)
    requires i < USIZE_BOUND
    ensures Bracketed(ToDecimal(i)) == [Index(i)]
    ensures forall c | c in ToDecimal(i) :: !Special(c)
  {
    var s := ToDecimal(i);
    DecimalRoundTrip(i);
    assert IsDigit(s[0]);
    assert "any"[0] == 'a';
  }

  // A key piece and what follows it; the leading dot is optional.
  lemma ScanKey(dot: string, key: string, rest: string)
    requires dot == "" || dot == "."
    requires key != "" && forall c | c in key :: !Special(c)
    requires rest == "" || rest[0] == '.' || rest[0] == '['
    ensures ScanPath(dot + key + rest, "") == [Key(key)] + ScanPath(rest, "")
  {
    hide ScanPath;
    var text := key + rest;
    assert ScanPath(text, "") == [Key(key)] + ScanPath(rest, "") by {
      ScanPlain(key, rest, "");
      assert "" + key == key;
      KeyComplete(rest, key);
    }
    if dot == "." {
      LeadingDot(text);
      assert dot + key + rest == "." + text;
    } else {
      assert dot + key + rest == text;
    }
  }

  lemma LeadingDot(text: string)
    ensures ScanPath("." + text, "") == ScanPath(text, "")
  {
    assert ("." + text)[1..] == text;
    assert [] + ScanPath(text, "") == ScanPath(text, "");
  }

  lemma ScanPiece(path: string, segment: Segment, rest: string)
    requires Expressible(segment)
    requires rest == "" || rest[0] == '.' || rest[0] == '['
    ensures ScanPath(Piece(path, segment) + rest, "") == [segment] + ScanPath(rest, "")
  {
    match segment
    case Key(k) => ScanKey(if path != "" then "." else "", k, rest);
    case Index(i) =>
      BracketedIndex(i);
      ScanBrackets(ToDecimal(i), rest);
    case Any =>
      ScanBrackets("any", rest);
      assert "[" + "any" + "]" == "[any]";
  }

  lemma {:induction false} ScanContinuation(segments: seq<Segment>)
    requires forall s | s in segments :: Expressible(s)
    ensures ScanPath(Continuation(segments), "") == segments
  {
    if segments != [] {
      ContinuationStarts(segments[1..]);
      ScanPiece("x", segments[0], Continuation(segments[1..]));
      ScanContinuation(segments[1..]);
    }
  }

  /** Printed segments parse back to themselves. */
  lemma ParseRebuild(segments: seq<Segment>)
    requires forall s | s in segments :: Expressible(s)
    ensures SegmentsOf(Rebuild(segments)) == segments
  {
    if segments != [] {
      var piece := Piece("", segments[0]);
      assert Expressible(segments[0]);
      assert piece != "";
      assert "" + piece == piece;
      RebuildIsContinuation(piece, segments[1..]);
      ContinuationStarts(segments[1..]);
      ScanPiece("", segments[0], Continuation(segments[1..]));
      ScanContinuation(segments[1..]);
    }
  }

  /** For every string, printing what was parsed and parsing it again changes nothing. */
  lemma ParseRebuildParse(path: string)
    ensures SegmentsOf(Rebuild(SegmentsOf(path))) == SegmentsOf(path)
  {
    ScanIsExpressible(path, "");
    ParseRebuild(SegmentsOf(path));
  }

  // ---- brackets ----

  /** A bracket that holds neither a position nor the wildcard is dropped; what is in front of it
      and behind it stays. */
  lemma BracketsAreRead(before: string, inside: string, behind: string)
    requires (forall c | c in before :: !Special(c)) && forall c | c in inside :: !Special(c)
    ensures SegmentsOf(before + "[" + inside + "]" + behind)
         == (if before != "" then [Key(before)] else [])
            + (if inside == "any" then [Any] else if ParseUsize(inside).Some? then [Index(ParseUsize(inside).value)] else [])
            + SegmentsOf(behind)
  {
    hide ParseUsize, ScanPath;
    var rest := "[" + (inside + ("]" + behind));
    assert before + "[" + inside + "]" + behind == before + rest;
    ScanPlain(before, rest, "");
    assert "" + before == before;
    OpenBracket(inside + ("]" + behind), before);
    ScanPlain(inside, "]" + behind, "");
    assert "" + inside == inside;
    CloseBracket(behind, inside);
    AppendAssociates(Pending(before), Bracketed(inside), SegmentsOf(behind));
  }

  lemma OpenBracket(rest: string, current: string)
    ensures ScanPath("[" + rest, current) == Pending(current) + ScanPath(rest, "")
  {
    assert ("[" + rest)[1..] == rest;
  }

  lemma CloseBracket(rest: string, current: string)
    ensures ScanPath("]" + rest, current) == Bracketed(current) + ScanPath(rest, "")
  {
    assert ("]" + rest)[1..] == rest;
  }

  /** A position is a decimal number within 64 bits, with or without a plus sign in front. */
  lemma PositionsAreNumbers(n: nat, s: string)
    ensures n < USIZE_BOUND ==> ParseUsize(ToDecimal(n)) == Some(n) && ParseUsize("+" + ToDecimal(n)) == Some(n)
    ensures n >= USIZE_BOUND ==> ParseUsize(ToDecimal(n)) == None
    ensures ParseUsize("") == None && ParseUsize("+") == None
    ensures (exists i | 0 <= i < |s| :: !IsDigit(s[i]) && (i > 0 || s[i] != '+')) ==> ParseUsize(s) == None
  {
    DecimalRoundTrip(n);
    var d := ToDecimal(n);
    assert d[0] in d && d[0] != '+';
    assert ("+" + d)[1..] == d;
    assert "+"[1..] == "";
    if i :| 0 <= i < |s| && !IsDigit(s[i]) && (i > 0 || s[i] != '+') {
      var digits := if s != [] && s[0] == '+' then s[1..] else s;
      assert s[i] in digits by {
        if s[0] == '+' { assert s[1..][i - 1] == s[i]; }
      }
    }
  }
}

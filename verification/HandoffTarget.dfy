/** Where an agent hands over to: one agent, or several in parallel. Targets are written as
    text, "name" or "fork:a,b,c". */
module HandoffTarget {
  import opened Text

  const MAX_FORK_TARGETS: nat := 10

  datatype HandoffTarget = Single(name: string) | Fork(names: seq<string>)

  function TrimAll(parts: seq<string>): seq<string> {
    if parts == [] then [] else [Trim(parts[0])] + TrimAll(parts[1..])
  }

  function NonEmptyOnes(parts: seq<string>): seq<string> {
    if parts == [] then []
    else (if parts[0] != "" then [parts[0]] else []) + NonEmptyOnes(parts[1..])
  }

  function Truncate(names: seq<string>): seq<string> {
    if |names| > MAX_FORK_TARGETS then names[..MAX_FORK_TARGETS] else names
  }

  function Parse(s: string): HandoffTarget {
    var trimmed := Trim(s);
    if "fork:" <= trimmed then Fork(Truncate(NonEmptyOnes(TrimAll(SplitOn(trimmed[5..], ',')))))
    else Single(trimmed)
  }

  function Display(t: HandoffTarget): string {
    match t
    case Single(name) => name
    case Fork(names) => "fork:" + Join(names, ',')
  }

  function AgentNames(t: HandoffTarget): seq<string> {
    match t
    case Single(name) => [name]
    case Fork(names) => names
  }

  // A name that survives splitting and trimming.
  predicate Clean(name: string) {
    name != "" && Trimmed(name) && ',' !in name
  }

  // What parsing can produce.
  ghost predicate Canonical(t: HandoffTarget) {
    match t
    case Single(name) => Trimmed(name) && !("fork:" <= name)
    case Fork(names) => |names| <= MAX_FORK_TARGETS && forall n | n in names :: Clean(n)
  }

  lemma {:induction false} PartsBecomeClean(parts: seq<string>)
    requires forall p | p in parts :: ',' !in p
    ensures forall n | n in NonEmptyOnes(TrimAll(parts)) :: Clean(n)
  {
    if parts != [] {
      PartsBecomeClean(parts[1..]);
      TrimShape(parts[0]);
      assert TrimAll(parts)[1..] == TrimAll(parts[1..]);
    }
  }

  lemma ParseIsCanonical(s: string)
    ensures Canonical(Parse(s))
  {
    var trimmed := Trim(s);
    TrimShape(s);
    if "fork:" <= trimmed {
      SplitParts(trimmed[5..], ',');
      PartsBecomeClean(SplitOn(trimmed[5..], ','));
    }
  }

  lemma {:induction false} CleanPartsStay(names: seq<string>)
    requires forall n | n in names :: Clean(n)
    ensures NonEmptyOnes(TrimAll(names)) == names
  {
    if names != [] {
      assert Clean(names[0]);
      CleanPartsStay(names[1..]);
      TrimmedIsFixed(names[0]);
      assert TrimAll(names)[1..] == TrimAll(names[1..]);
      assert names == [names[0]] + names[1..];
    }
  }

  lemma {:induction false} JoinEndsClean(names: seq<string>)
    requires names != [] && forall n | n in names :: Clean(n)
    ensures var s := Join(names, ','); s != "" && !IsWhitespace(s[|s| - 1])
  {
    assert Clean(names[0]);
    if |names| > 1 {
      JoinEndsClean(names[1..]);
      assert names == [names[0]] + names[1..];
      JoinCons(names[0], names[1..], ',');
    }
  }

  lemma ForkDisplayIsTrimmed(names: seq<string>)
    requires forall n | n in names :: Clean(n)
    ensures Trimmed("fork:" + Join(names, ','))
  {
    if names != [] {
      JoinEndsClean(names);
    }
  }

  /** Printed names are read back in order; of more than ten the first ten are kept. */
  lemma ParseFork(names: seq<string>)
    requires forall n | n in names :: Clean(n)
    ensures Parse(Display(Fork(names))) == Fork(if |names| <= MAX_FORK_TARGETS then names else names[..MAX_FORK_TARGETS])
  {
    var text := "fork:" + Join(names, ',');
    ForkDisplayIsTrimmed(names);
    TrimmedIsFixed(text);
    assert text[5..] == Join(names, ',');
    if names == [] {
      assert SplitOn("", ',') == [""];
      assert TrimAll([""]) == [""];
    } else {
      SplitJoin(names, ',');
      CleanPartsStay(names);
    }
  }

  /** Every target that parsing can produce is read back from its own text. */
  lemma ParseDisplay(t: HandoffTarget)
    requires Canonical(t)
    ensures Parse(Display(t)) == t
  {
    match t
    case Single(name) => TrimmedIsFixed(name);
    case Fork(names) => ParseFork(names);
  }

  /** Parsing, printing and parsing again is parsing, for every string. */
  lemma ParsePrintParse(s: string)
    ensures Parse(Display(Parse(s))) == Parse(s)
  {
    ParseIsCanonical(s);
    ParseDisplay(Parse(s));
  }
}

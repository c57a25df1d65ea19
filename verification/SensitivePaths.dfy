/** Matching path components against patterns with `*`, and paths against lists of patterns.
    The matcher searches greedily; the reference is the usual meaning of a glob. */
module SensitivePaths {
  import opened Text

  // ---- reference: what a glob means ----

  // `*` stands for any characters, every other character for itself.
  predicate Glob(s: string, pattern: string)
    decreases |pattern|
  {
    if pattern == "" then s == ""
    else if pattern[0] == '*' then exists k | 0 <= k <= |s| :: Glob(s[k..], pattern[1..])
    else s != "" && s[0] == pattern[0] && Glob(s[1..], pattern[1..])
  }

  // ---- the matcher ----

  predicate OccursAt(s: string, part: string, pos: nat) {
    pos + |part| <= |s| && s[pos..pos + |part|] == part
  }

  predicate EndsWith(s: string, part: string) {
    |part| <= |s| && s[|s| - |part|..] == part
  }

  // The parts occur one after the other, without overlap, from `from` on.
  predicate InOrder(s: string, from: nat, parts: seq<string>)
    decreases |parts|
  {
    parts == [] ||
    exists pos | from <= pos <= |s| :: OccursAt(s, parts[0], pos) && InOrder(s, pos + |parts[0]|, parts[1..])
  }

  // What the matcher accepts: prefix, suffix, and the middle parts in order.
  predicate Accepts(component: string, pattern: string) {
    var parts := SplitOn(pattern, '*');
    if |parts| == 1 then component == pattern
    else
      && parts[0] <= component
      && EndsWith(component, parts[|parts| - 1])
      && InOrder(component, 0, parts[1..|parts| - 1])
  }

  // `str::find` from a position on: the first occurrence.
  method FindFrom(s: string, from: nat, part: string) returns (pos: Option<nat>)
    requires from <= |s|
    ensures pos.Some? ==> pos.value >= from && OccursAt(s, part, pos.value)
    ensures forall k: nat | k >= from && OccursAt(s, part, k) :: pos.Some? && pos.value <= k
  {
    var i := from;
    while i + |part| <= |s|
      invariant from <= i
      invariant forall k: nat | from <= k < i :: !OccursAt(s, part, k)
    {
      if s[i..i + |part|] == part {
        return Some(i);
      }
      i := i + 1;
    }
    return None;
  }

  // Starting earlier never hurts.
  lemma {:induction false} InOrderEarlier(s: string, from: nat, later: nat, parts: seq<string>)
    requires from <= later && InOrder(s, later, parts)
    ensures InOrder(s, from, parts)
  {
    if parts != [] {
      var pos :| later <= pos <= |s| && OccursAt(s, parts[0], pos) && InOrder(s, pos + |parts[0]|, parts[1..]);
    }
  }

  /** The greedy search accepts exactly the components in which the parts can be placed. */
  method ComponentMatchesPattern(component: string, pattern: string) returns (r: bool)
    ensures r <==> Accepts(component, pattern)
  {
    SplitAlone(pattern, '*');
    if '*' !in pattern {
      return component == pattern;
    }
    var segments := SplitOn(pattern, '*');
    if segments[0] != "" && !(segments[0] <= component) {
      return false;
    }
    var last := segments[|segments| - 1];
    if |segments| > 1 && last != "" && !EndsWith(component, last) {
      return false;
    }
    var middle := segments[1..|segments| - 1];
    var searchFrom := 0;
    for i := 0 to |middle|
      invariant 0 <= searchFrom <= |component|
      invariant InOrder(component, 0, middle) <==> InOrder(component, searchFrom, middle[i..])
    {
      assert middle[i..][0] == middle[i] && middle[i..][1..] == middle[i + 1..];
      if middle[i] == "" {
        EmptyPart(component, searchFrom, middle[i..]);
        continue;
      }
      var pos := FindFrom(component, searchFrom, middle[i]);
      if pos == None {
        return false;
      }
      FirstIsBest(component, searchFrom, middle[i..], pos.value);
      searchFrom := pos.value + |middle[i]|;
    }
    return true;
  }

  lemma EmptyPart(s: string, from: nat, parts: seq<string>)
    requires parts != [] && parts[0] == "" && from <= |s|
    ensures InOrder(s, from, parts) <==> InOrder(s, from, parts[1..])
  {
    if InOrder(s, from, parts) {
      var pos :| from <= pos <= |s| && OccursAt(s, parts[0], pos) && InOrder(s, pos + |parts[0]|, parts[1..]);
      InOrderEarlier(s, from, pos, parts[1..]);
    }
    if InOrder(s, from, parts[1..]) {
      assert OccursAt(s, "", from);
    }
  }

  lemma FirstIsBest(s: string, from: nat, parts: seq<string>, first: nat)
    requires parts != [] && first >= from && OccursAt(s, parts[0], first)
    requires forall k: nat | k >= from && OccursAt(s, parts[0], k) :: first <= k
    ensures InOrder(s, from, parts) <==> InOrder(s, first + |parts[0]|, parts[1..])
  {
    if InOrder(s, from, parts) {
      var pos :| from <= pos <= |s| && OccursAt(s, parts[0], pos) && InOrder(s, pos + |parts[0]|, parts[1..]);
      InOrderEarlier(s, first + |parts[0]|, pos + |parts[0]|, parts[1..]);
    }
  }

  // ---- no false negatives ----

  // A component matches literally up to the first star, and from some later point on the rest.
  lemma {:induction false} GlobLiteral(s: string, literal: string, rest: string)
    requires '*' !in literal
    ensures Glob(s, literal + rest) <==> literal <= s && Glob(s[|literal|..], rest)
    decreases |literal|
  {
    if literal == "" {
      assert literal + rest == rest && s[0..] == s;
    } else {
      var pattern := literal + rest;
      assert pattern[0] == literal[0] && pattern[1..] == literal[1..] + rest;
      assert literal[0] in literal;
      if s != "" && s[0] == literal[0] {
        GlobLiteral(s[1..], literal[1..], rest);
        assert literal <= s <==> literal[1..] <= s[1..];
        if literal <= s {
          assert s[1..][|literal| - 1..] == s[|literal|..];
        }
      }
    }
  }

  // The parts are placed: the first at the start, the last at the end, the others in between.
  ghost predicate Placed(s: string, parts: seq<string>)
    requires parts != []
    decreases |parts|
  {
    if |parts| == 1 then s == parts[0]
    else parts[0] <= s && exists k | |parts[0]| <= k <= |s| :: Placed(s[k..], parts[1..])
  }

  lemma {:induction false} GlobIsPlaced(s: string, parts: seq<string>)
    requires parts != [] && forall p | p in parts :: '*' !in p
    ensures Glob(s, Join(parts, '*')) <==> Placed(s, parts)
    decreases |parts|
  {
    var head := parts[0];
    if |parts| == 1 {
      GlobLiteral(s, head, "");
      assert head + "" == head;
      assert head <= s && s[|head|..] == "" <==> s == head;
    } else {
      var tail := Join(parts[1..], '*');
      assert parts == [head] + parts[1..];
      JoinCons(head, parts[1..], '*');
      assert head + ['*'] + tail == head + ("*" + tail);
      GlobLiteral(s, head, "*" + tail);
      assert ("*" + tail)[1..] == tail;
      if head <= s {
        var after := s[|head|..];
        forall k | 0 <= k <= |after|
          ensures Glob(after[k..], tail) <==> Placed(s[|head| + k..], parts[1..])
        {
          assert after[k..] == s[|head| + k..];
          GlobIsPlaced(s[|head| + k..], parts[1..]);
        }
        if Glob(s, Join(parts, '*')) {
          var k :| 0 <= k <= |after| && Glob(after[k..], tail);
          assert Placed(s[|head| + k..], parts[1..]);
        }
        if Placed(s, parts) {
          var k :| |head| <= k <= |s| && Placed(s[k..], parts[1..]);
          assert Glob(after[k - |head|..], tail);
        }
      }
    }
  }

  // The parts can be placed somewhere behind `from`.
  ghost predicate PlacedAfter(s: string, from: nat, parts: seq<string>)
    requires parts != []
  {
    exists k | from <= k <= |s| :: Placed(s[k..], parts)
  }

  // In front of the last part, which ends the string, the others occur in order.
  ghost predicate OccursBefore(s: string, from: nat, parts: seq<string>)
    requires parts != []
  {
    var last := parts[|parts| - 1];
    from + |last| <= |s| && EndsWith(s, last) && InOrder(s[..|s| - |last|], from, parts[..|parts| - 1])
  }

  // Both say where the first part is and, the same way, what comes after it.
  lemma PlacedAfterFirst(s: string, from: nat, parts: seq<string>)
    requires |parts| > 1
    ensures PlacedAfter(s, from, parts) <==>
              exists k: nat | from <= k && OccursAt(s, parts[0], k) :: PlacedAfter(s, k + |parts[0]|, parts[1..])
  {
    if k :| from <= k <= |s| && Placed(s[k..], parts) {
      var m :| |parts[0]| <= m <= |s[k..]| && Placed(s[k..][m..], parts[1..]);
      assert s[k..][m..] == s[k + m..];
      assert OccursAt(s, parts[0], k) && PlacedAfter(s, k + |parts[0]|, parts[1..]);
    }
    if k: nat :| from <= k && OccursAt(s, parts[0], k) && PlacedAfter(s, k + |parts[0]|, parts[1..]) {
      var m :| k + |parts[0]| <= m <= |s| && Placed(s[m..], parts[1..]);
      assert s[k..][m - k..] == s[m..];
      assert Placed(s[k..], parts);
    }
  }

  lemma OccursBeforeFirst(s: string, from: nat, parts: seq<string>)
    requires |parts| > 1
    ensures OccursBefore(s, from, parts) <==>
              exists k: nat | from <= k && OccursAt(s, parts[0], k) :: OccursBefore(s, k + |parts[0]|, parts[1..])
  {
    var n := |parts| - 1;
    assert parts[1..][..n - 1] == parts[..n][1..];
    if EndsWith(s, parts[n]) {
      var body := s[..|s| - |parts[n]|];
      forall k: nat
        ensures OccursAt(body, parts[0], k) <==> OccursAt(s, parts[0], k) && k + |parts[0]| <= |body|
      {
        if k + |parts[0]| <= |body| {
          assert body[k..k + |parts[0]|] == s[k..k + |parts[0]|];
        }
      }
    }
  }

  // Parts can be placed from some point on exactly when all but the last occur in order and the
  // last one, which must not overlap them, stands at the end.
  lemma {:induction false} PlacedFrom(s: string, from: nat, parts: seq<string>)
    requires parts != []
    ensures PlacedAfter(s, from, parts) <==> OccursBefore(s, from, parts)
    decreases |parts|
  {
    if |parts| == 1 {
      LastOfAll(s, from, parts[0]);
      assert parts == [parts[0]];
    } else {
      hide PlacedAfter, OccursBefore;
      PlacedAfterFirst(s, from, parts);
      OccursBeforeFirst(s, from, parts);
      forall k: nat | OccursAt(s, parts[0], k)
        ensures PlacedAfter(s, k + |parts[0]|, parts[1..]) <==> OccursBefore(s, k + |parts[0]|, parts[1..])
      {
        PlacedFrom(s, k + |parts[0]|, parts[1..]);
      }
    }
  }

  lemma LastOfAll(s: string, from: nat, last: string)
    ensures PlacedAfter(s, from, [last]) <==> OccursBefore(s, from, [last])
  {
    if from + |last| <= |s| && EndsWith(s, last) {
      assert Placed(s[|s| - |last|..], [last]);
    }
  }

  // What occurs in order in a prefix does so in the whole.
  lemma {:induction false} InOrderInLonger(s: string, n: nat, from: nat, parts: seq<string>)
    requires n <= |s| && InOrder(s[..n], from, parts)
    ensures InOrder(s, from, parts)
    decreases |parts|
  {
    if parts != [] {
      var pos :| from <= pos <= n && OccursAt(s[..n], parts[0], pos) && InOrder(s[..n], pos + |parts[0]|, parts[1..]);
      InOrderInLonger(s, n, pos + |parts[0]|, parts[1..]);
      assert s[..n][pos..pos + |parts[0]|] == s[pos..pos + |parts[0]|];
      assert OccursAt(s, parts[0], pos);
    }
  }

  // The parts of a pattern are what a match places.
  lemma GlobPlacesParts(component: string, pattern: string)
    ensures Glob(component, pattern) <==> Placed(component, SplitOn(pattern, '*'))
  {
    JoinSplit(pattern, '*');
    SplitParts(pattern, '*');
    GlobIsPlaced(component, SplitOn(pattern, '*'));
  }

  // The middle parts have room: between the prefix and the suffix, without touching them.
  predicate HasRoom(component: string, pattern: string) {
    var parts := SplitOn(pattern, '*');
    var first, last := parts[0], parts[|parts| - 1];
    |first| + |last| <= |component|
    && (|parts| > 1 ==> InOrder(component[..|component| - |last|], |first|, parts[1..|parts| - 1]))
  }

  /** What is accepted matches exactly when the middle parts can be placed between prefix and
      suffix; the matcher lets them overlap. */
  lemma MatchesWithRoom(component: string, pattern: string)
    requires '*' in pattern
    ensures Glob(component, pattern) <==> Accepts(component, pattern) && HasRoom(component, pattern)
  {
    var parts := SplitOn(pattern, '*');
    var first, n := parts[0], |parts| - 1;
    SplitAlone(pattern, '*');
    GlobPlacesParts(component, pattern);
    PlacedFrom(component, |first|, parts[1..]);
    assert parts[1..][..n - 1] == parts[1..n];
    if first <= component && OccursBefore(component, |first|, parts[1..]) {
      var end := |component| - |parts[n]|;
      InOrderInLonger(component, end, |first|, parts[1..n]);
      InOrderEarlier(component, 0, |first|, parts[1..n]);
    }
  }

  /** Every component that truly matches a pattern, with any number of stars, is accepted. */
  lemma NoFalseNegatives(component: string, pattern: string)
    requires Glob(component, pattern)
    ensures Accepts(component, pattern)
  {
    SplitAlone(pattern, '*');
    if '*' in pattern {
      MatchesWithRoom(component, pattern);
    } else {
      GlobPlacesParts(component, pattern);
    }
  }

  /** With one star it is enough that prefix and suffix have room. */
  lemma OneStarIsExact(component: string, pattern: string)
    requires |SplitOn(pattern, '*')| == 2
    ensures var parts := SplitOn(pattern, '*');
            Glob(component, pattern) <==> Accepts(component, pattern) && |component| >= |parts[0]| + |parts[1]|
  {
    SplitAlone(pattern, '*');
    MatchesWithRoom(component, pattern);
  }

  lemma SplitTwo(first: string, second: string)
    requires '*' !in first && '*' !in second
    ensures SplitOn(first + ['*'] + second, '*') == [first, second]
  {
    SplitCons(first, second, '*');
    SplitAlone(second, '*');
  }

  /** Prefix and suffix that overlap are accepted... */
  lemma OverlapIsAccepted()
    ensures Accepts("aba", "ab*ba") && !Glob("aba", "ab*ba")
  {
    var pattern := "ab*ba";
    assert pattern == "ab" + ['*'] + "ba";
    SplitTwo("ab", "ba");
    assert "aba"[1..] == "ba";
    OneStarIsExact("aba", pattern);
  }

  lemma SplitThree()
    ensures SplitOn("ab*b*", '*') == ["ab", "b", ""]
  {
    assert "ab*b*" == "ab" + ['*'] + "b*" && "b*" == "b" + ['*'] + "";
    SplitTwo("b", "");
    SplitCons("ab", "b*", '*');
  }

  lemma OneInOrder(s: string, from: nat, part: string)
    ensures InOrder(s, from, [part]) <==> exists pos: nat | from <= pos <= |s| :: OccursAt(s, part, pos)
  {
    var parts := [part];
    if pos: nat :| from <= pos <= |s| && OccursAt(s, part, pos) {
      assert OccursAt(s, parts[0], pos) && InOrder(s, pos + |parts[0]|, parts[1..]);
    }
  }

  lemma BAtOne()
    ensures OccursAt("ab", "b", 1) && !OccursAt("ab", "b", 2)
  {
    assert "ab"[1..2] == "b";
  }

  /** ... and so is a middle part that overlaps the prefix, in a component that is long enough. */
  lemma MiddleOverlapIsAccepted()
    ensures Accepts("ab", "ab*b*") && !Glob("ab", "ab*b*")
  {
    hide SplitOn, Glob, InOrder, OccursAt;
    SplitThree();
    assert ["ab", "b", ""][1..2] == ["b"] && "ab"[..2] == "ab" && "ab"[2..] == "";
    OneInOrder("ab", 0, "b");
    OneInOrder("ab", 2, "b");
    BAtOne();
    MatchesWithRoom("ab", "ab*b*");
  }

  // ---- whole paths ----

  // `parts` patterns in a row match neighbouring components from `i` on.
  predicate WindowAt(comps: seq<string>, parts: seq<string>, i: nat) {
    i + |parts| <= |comps| && forall j | 0 <= j < |parts| :: Accepts(comps[i + j], parts[j])
  }

  predicate PathMatchesSensitive(comps: seq<string>, pattern: string) {
    var parts := SplitOn(pattern, '/');
    if comps == [] then false
    else if |parts| == 1 then exists c | c in comps :: Accepts(c, parts[0])
    else exists i | 0 <= i < |comps| :: WindowAt(comps, parts, i)
  }

  /** A path with neighbouring components that truly match the pattern's parts is flagged. */
  lemma SensitivePathsAreFlagged(comps: seq<string>, pattern: string, i: nat)
    requires var parts := SplitOn(pattern, '/');
             i + |parts| <= |comps| && forall j | 0 <= j < |parts| :: Glob(comps[i + j], parts[j])
    ensures PathMatchesSensitive(comps, pattern)
  {
    var parts := SplitOn(pattern, '/');
    forall j | 0 <= j < |parts|
      ensures Accepts(comps[i + j], parts[j])
    {
      NoFalseNegatives(comps[i + j], parts[j]);
    }
    if |parts| == 1 {
      assert Accepts(comps[i + 0], parts[0]);
      assert comps[i] in comps;
    } else {
      assert WindowAt(comps, parts, i);
    }
  }

  // One component for each pattern, and each is accepted.
  predicate AllAccepted(comps: seq<string>, parts: seq<string>)
    decreases |parts|
  {
    |comps| == |parts| && (parts == [] || (Accepts(comps[0], parts[0]) && AllAccepted(comps[1..], parts[1..])))
  }

  // The patterns stand for the components from `i` on.
  predicate PatternAt(comps: seq<string>, parts: seq<string>, i: nat) {
    i + |parts| <= |comps| && AllAccepted(comps[i..i + |parts|], parts)
  }

  ghost predicate PatternSomewhere(comps: seq<string>, parts: seq<string>) {
    exists i: nat :: PatternAt(comps, parts, i)
  }

  lemma {:induction false} WindowIsPattern(comps: seq<string>, parts: seq<string>, i: nat)
    ensures WindowAt(comps, parts, i) <==> PatternAt(comps, parts, i)
    decreases |parts|
  {
    hide Accepts;
    if parts != [] && i + |parts| <= |comps| {
      WindowIsPattern(comps, parts[1..], i + 1);
      assert comps[i..i + |parts|][1..] == comps[i + 1..i + 1 + |parts[1..]|];
      if WindowAt(comps, parts, i) {
        forall j | 0 <= j < |parts| - 1
          ensures Accepts(comps[i + 1 + j], parts[1..][j])
        {
          assert Accepts(comps[i + (j + 1)], parts[j + 1]);
        }
        assert Accepts(comps[i + 0], parts[0]);
      }
      if PatternAt(comps, parts, i) {
        assert WindowAt(comps, parts[1..], i + 1);
        forall j | 0 <= j < |parts|
          ensures Accepts(comps[i + j], parts[j])
        {
          if j > 0 { assert Accepts(comps[i + 1 + (j - 1)], parts[1..][j - 1]); }
        }
      }
    }
  }

  /** A path is flagged exactly when somewhere in it the parts of the pattern are accepted for
      neighbouring components, one for each. */
  lemma FlaggedMeans(comps: seq<string>, pattern: string)
    ensures PathMatchesSensitive(comps, pattern) <==> PatternSomewhere(comps, SplitOn(pattern, '/'))
  {
    hide Accepts, SplitOn, WindowAt, PatternAt;
    var parts := SplitOn(pattern, '/');
    forall i: nat
      ensures WindowAt(comps, parts, i) <==> PatternAt(comps, parts, i)
      ensures WindowAt(comps, parts, i) ==> i < |comps|
    {
      WindowIsPattern(comps, parts, i);
      if WindowAt(comps, parts, i) { WindowInside(comps, parts, i); }
    }
    if |parts| == 1 {
      SinglePart(comps, parts);
    }
  }

  lemma WindowInside(comps: seq<string>, parts: seq<string>, i: nat)
    requires parts != [] && WindowAt(comps, parts, i)
    ensures i < |comps|
  {
  }

  lemma SinglePart(comps: seq<string>, parts: seq<string>)
    requires |parts| == 1
    ensures (exists c | c in comps :: Accepts(c, parts[0])) <==> exists i: nat :: WindowAt(comps, parts, i)
  {
    hide Accepts;
    if c :| c in comps && Accepts(c, parts[0]) {
      var i: nat :| i < |comps| && comps[i] == c;
      assert WindowAt(comps, parts, i);
    }
    if i: nat :| WindowAt(comps, parts, i) {
      assert Accepts(comps[i + 0], parts[0]) && comps[i + 0] in comps;
    }
  }

  // Every pattern part leaves room in the component it stands for.
  predicate RoomAt(comps: seq<string>, parts: seq<string>, i: nat) {
    i + |parts| <= |comps|
    && forall j | 0 <= j < |parts| :: '*' in parts[j] ==> HasRoom(comps[i + j], parts[j])
  }

  /** Where the parts of the pattern have room, a window is accepted exactly when all of its
      components truly match. */
  lemma WindowsMatchWithRoom(comps: seq<string>, parts: seq<string>, i: nat)
    requires RoomAt(comps, parts, i)
    ensures WindowAt(comps, parts, i) <==> forall j | 0 <= j < |parts| :: Glob(comps[i + j], parts[j])
  {
    hide Accepts, HasRoom, Glob;
    forall j | 0 <= j < |parts|
      ensures Accepts(comps[i + j], parts[j]) <==> Glob(comps[i + j], parts[j])
    {
      if '*' in parts[j] {
        MatchesWithRoom(comps[i + j], parts[j]);
      } else {
        PlainPattern(comps[i + j], parts[j]);
      }
    }
  }

  lemma PlainPattern(component: string, pattern: string)
    requires '*' !in pattern
    ensures Accepts(component, pattern) <==> component == pattern
    ensures Glob(component, pattern) <==> component == pattern
  {
    SplitAlone(pattern, '*');
    GlobPlacesParts(component, pattern);
  }
}

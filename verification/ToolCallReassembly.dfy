/** From interleaved tool-call fragments back to whole tool calls: what the deltas say, what the
    OpenAI parser makes of them, and what the collecting loop makes of that. */
module ToolCallReassembly {
  import opened Text
  import opened StreamEvents
  import opened IndexMap
  import opened OpenAiParser
  import opened ChatComplete

  // ---- the calls a list of deltas describes ----

  // The delta that opens the call at an index.
  function Opener(tcs: seq<ToolDelta>, index: nat): Option<ToolDelta> {
    if tcs == [] then None
    else
      var earlier := Opener(tcs[..|tcs| - 1], index);
      var last := tcs[|tcs| - 1];
      if earlier.Some? then earlier
      else if last.id.Some? && Position(last) == index then Some(last)
      else None
  }

  // The arguments sent for an index, in order of arrival.
  function Fragments(tcs: seq<ToolDelta>, index: nat): string {
    if tcs == [] then ""
    else
      var last := tcs[|tcs| - 1];
      Fragments(tcs[..|tcs| - 1], index) + if Position(last) == index then OrElse(last.arguments, "") else ""
  }

  // Each index is opened once, with an id of its own, and before any fragment for it.
  ghost predicate OpenedOnce(tcs: seq<ToolDelta>) {
    && (forall j, k | 0 <= j < k < |tcs| :: tcs[j].id.Some? && tcs[k].id.Some? ==>
          Position(tcs[j]) != Position(tcs[k]) && tcs[j].id != tcs[k].id)
    && FollowOpeners(tcs)
  }

  ghost predicate FollowsOpener(tcs: seq<ToolDelta>, k: nat)
    requires k < |tcs|
  {
    NonEmpty(tcs[k].arguments).Some? ==>
      exists j | 0 <= j <= k :: tcs[j].id.Some? && Position(tcs[j]) == Position(tcs[k])
  }

  ghost predicate FollowOpeners(tcs: seq<ToolDelta>) {
    forall k | 0 <= k < |tcs| :: FollowsOpener(tcs, k)
  }

  // The call of an opener: its name, and the fragments of its index.
  ghost predicate HasCall(tcs: seq<ToolDelta>, tc: ToolDelta, calls: Builders)
    requires tc.id.Some?
  {
    tc.id.value in calls && calls[tc.id.value] == ToolCallBuilder(OrElse(tc.name, ""), Fragments(tcs, Position(tc)))
  }

  // The calls hold, under each opener's id, its name and the fragments of its index; nothing else.
  ghost predicate Reassembled(tcs: seq<ToolDelta>, calls: Builders) {
    && (forall tc | tc in tcs && tc.id.Some? :: HasCall(tcs, tc, calls))
    && (forall id | id in calls :: exists tc | tc in tcs :: tc.id == Some(id))
  }

  // The parser remembers the opener's id at each index.
  ghost predicate Remembered(tcs: seq<ToolDelta>, ids: Entries) {
    forall index: nat ::
      Lookup(ids, index) == if Opener(tcs, index).Some? then Opener(tcs, index).value.id else None
  }

  lemma {:induction false} OpenerIs(tcs: seq<ToolDelta>, index: nat)
    ensures Opener(tcs, index).Some? ==>
              var tc := Opener(tcs, index).value; tc in tcs && tc.id.Some? && Position(tc) == index
    ensures Opener(tcs, index) == None ==> forall tc | tc in tcs && tc.id.Some? :: Position(tc) != index
  {
    if tcs != [] {
      assert tcs == tcs[..|tcs| - 1] + [tcs[|tcs| - 1]];
      OpenerIs(tcs[..|tcs| - 1], index);
    }
  }

  lemma OpenedOncePrefix(tcs: seq<ToolDelta>, n: nat)
    requires OpenedOnce(tcs) && n <= |tcs|
    ensures OpenedOnce(tcs[..n])
  {
    forall k | 0 <= k < n && NonEmpty(tcs[..n][k].arguments).Some?
      ensures exists j | 0 <= j <= k :: tcs[..n][j].id.Some? && Position(tcs[..n][j]) == Position(tcs[..n][k])
    {
      assert tcs[..n][k] == tcs[k] && FollowsOpener(tcs, k);
      var j :| 0 <= j <= k && tcs[j].id.Some? && Position(tcs[j]) == Position(tcs[k]);
      assert tcs[..n][j] == tcs[j];
    }
  }

  // An index nobody has opened has no fragments either.
  lemma {:induction false} NoOpenerNoFragments(tcs: seq<ToolDelta>, index: nat)
    requires OpenedOnce(tcs) && Opener(tcs, index) == None
    ensures Fragments(tcs, index) == ""
  {
    if tcs != [] {
      var n := |tcs| - 1;
      OpenedOncePrefix(tcs, n);
      NoOpenerNoFragments(tcs[..n], index);
      OpenerIs(tcs, index);
      assert forall j | 0 <= j <= n :: tcs[j] in tcs;
      assert FollowsOpener(tcs, n);
      assert Position(tcs[n]) == index ==> NonEmpty(tcs[n].arguments) == None;
    }
  }

  lemma {:induction false} ToolDeltasAppend(ids: Entries, first: seq<ToolDelta>, second: seq<ToolDelta>)
    ensures var (ids1, e1) := OnToolDeltas(ids, first);
            var (ids2, e2) := OnToolDeltas(ids1, second);
            OnToolDeltas(ids, first + second) == (ids2, e1 + e2)
    decreases |first|
  {
    if first == [] {
      assert first + second == second;
      assert [] + OnToolDeltas(ids, second).1 == OnToolDeltas(ids, second).1;
    } else {
      assert (first + second)[1..] == first[1..] + second;
      var (ids1, e0) := OnToolDelta(ids, first[0]);
      ToolDeltasAppend(ids1, first[1..], second);
      var (ids2, e1) := OnToolDeltas(ids1, first[1..]);
      AppendAssociates(e0, e1, OnToolDeltas(ids2, second).1);
    }
  }

  // A delta that opens a call finds its index unused.
  lemma OpensUnusedIndex(tcs: seq<ToolDelta>, tc: ToolDelta)
    requires OpenedOnce(tcs + [tc]) && tc.id.Some?
    ensures Opener(tcs, Position(tc)) == None
  {
    var longer := tcs + [tc];
    OpenerIs(tcs, Position(tc));
    forall j | 0 <= j < |tcs| && tcs[j].id.Some?
      ensures Position(tcs[j]) != Position(tc)
    {
      assert longer[j] == tcs[j] && longer[|tcs|] == tc;
    }
  }

  // A fragment finds its index in use.
  lemma FragmentHasOpener(tcs: seq<ToolDelta>, tc: ToolDelta)
    requires OpenedOnce(tcs + [tc]) && NonEmpty(tc.arguments).Some?
    ensures Opener(tcs + [tc], Position(tc)).Some?
  {
    var longer := tcs + [tc];
    assert longer[|tcs|] == tc && FollowsOpener(longer, |tcs|);
    var j :| 0 <= j <= |tcs| && longer[j].id.Some? && Position(longer[j]) == Position(longer[|tcs|]);
    assert longer[j] in longer;
    OpenerIs(longer, Position(tc));
  }

  // One more delta: the parser's memory.
  lemma RememberedSnoc(tcs: seq<ToolDelta>, tc: ToolDelta, ids: Entries)
    requires OpenedOnce(tcs + [tc]) && Remembered(tcs, ids)
    ensures Remembered(tcs + [tc], OnToolDelta(ids, tc).0)
  {
    var longer := tcs + [tc];
    assert longer[..|tcs|] == tcs;
    forall index: nat
      ensures Lookup(OnToolDelta(ids, tc).0, index)
           == if Opener(longer, index).Some? then Opener(longer, index).value.id else None
    {
      OpenerIs(tcs, index);
      if tc.id.Some? {
        OpensUnusedIndex(tcs, tc);
        InsertLookup(ids, Position(tc), tc.id.value, index);
      }
    }
  }

  // Openers with the same index are the same opener, and so are those with the same id.
  lemma SameCall(tcs: seq<ToolDelta>, s: ToolDelta, t: ToolDelta)
    requires OpenedOnce(tcs) && s in tcs && t in tcs && s.id.Some? && t.id.Some?
    ensures s.id == t.id <==> Position(s) == Position(t)
    ensures s.id == t.id ==> s == t
  {
    var i :| 0 <= i < |tcs| && tcs[i] == s;
    var j :| 0 <= j < |tcs| && tcs[j] == t;
    if i < j {
      assert Position(tcs[i]) != Position(tcs[j]);
    } else if j < i {
      assert Position(tcs[j]) != Position(tcs[i]);
    }
  }

  // The effect of one delta on the calls, given what the parser remembers.
  lemma DeltaEffectByIds(tc: ToolDelta, ids: Entries, calls: Builders)
    ensures var final, arguments := CallsOf(OnToolDelta(ids, tc).1, calls), OrElse(tc.arguments, "");
            var owner := Lookup(ids, Position(tc));
            if tc.id.Some? then final == calls[tc.id.value := ToolCallBuilder(OrElse(tc.name, ""), arguments)]
            else if arguments != "" && owner.Some? && owner.value in calls then
              final == calls[owner.value := calls[owner.value].(arguments := calls[owner.value].arguments + arguments)]
            else final == calls
  {
    var ids1 := OnToolDelta(ids, tc).0;
    CallsOfAppend(StartOf(tc), FragmentOf(ids1, tc), calls);
    var arguments := OrElse(tc.arguments, "");
    if tc.id.Some? {
      InsertLookup(ids, Position(tc), tc.id.value, Position(tc));
      var started := calls[tc.id.value := ToolCallBuilder(OrElse(tc.name, ""), "")];
      assert CallsOf(StartOf(tc), calls) == started;
      assert "" + arguments == arguments;
    }
  }

  lemma DeltaEffect(tcs: seq<ToolDelta>, tc: ToolDelta, ids: Entries, calls: Builders)
    requires OpenedOnce(tcs + [tc]) && Remembered(tcs, ids) && Reassembled(tcs, calls)
    ensures var final, arguments := CallsOf(OnToolDelta(ids, tc).1, calls), OrElse(tc.arguments, "");
            if tc.id.Some? then final == calls[tc.id.value := ToolCallBuilder(OrElse(tc.name, ""), arguments)]
            else if arguments == "" then final == calls
            else
              var opener := Opener(tcs, Position(tc));
              opener.Some? && opener.value.id.Some? && opener.value.id.value in calls
              && var id := opener.value.id.value;
                 final == calls[id := calls[id].(arguments := calls[id].arguments + arguments)]
  {
    DeltaEffectByIds(tc, ids, calls);
    if tc.id == None && OrElse(tc.arguments, "") != "" {
      FragmentHasOpener(tcs, tc);
      assert (tcs + [tc])[..|tcs|] == tcs;
      OpenerIs(tcs, Position(tc));
    }
  }

  lemma FragmentsSnoc(tcs: seq<ToolDelta>, tc: ToolDelta, index: nat)
    ensures Fragments(tcs + [tc], index)
         == if Position(tc) == index then Fragments(tcs, index) + OrElse(tc.arguments, "") else Fragments(tcs, index)
  {
    assert (tcs + [tc])[..|tcs|] == tcs;
    assert Fragments(tcs, index) + "" == Fragments(tcs, index);
  }

  // One more delta, seen from one opener: a delta that opens a call...
  lemma ReassembledAtOpening(tcs: seq<ToolDelta>, tc: ToolDelta, ids: Entries, calls: Builders, t: ToolDelta)
    requires OpenedOnce(tcs + [tc]) && Remembered(tcs, ids) && Reassembled(tcs, calls) && tc.id.Some?
    requires t in tcs + [tc] && t.id.Some?
    ensures var final := CallsOf(OnToolDelta(ids, tc).1, calls);
            t.id.value in final
            && final[t.id.value] == ToolCallBuilder(OrElse(t.name, ""), Fragments(tcs + [tc], Position(t)))
  {
    DeltaEffect(tcs, tc, ids, calls);
    FragmentsSnoc(tcs, tc, Position(t));
    SameCall(tcs + [tc], t, tc);
    if t == tc {
      OpensUnusedIndex(tcs, tc);
      assert (tcs + [tc])[..|tcs|] == tcs;
      OpenedOncePrefix(tcs + [tc], |tcs|);
      NoOpenerNoFragments(tcs, Position(tc));
      assert "" + OrElse(tc.arguments, "") == OrElse(tc.arguments, "");
    } else {
      assert t in tcs;
    }
  }

  // ... and one that only adds a fragment, or nothing.
  lemma ReassembledAtFragment(tcs: seq<ToolDelta>, tc: ToolDelta, ids: Entries, calls: Builders, t: ToolDelta)
    requires OpenedOnce(tcs + [tc]) && Remembered(tcs, ids) && Reassembled(tcs, calls) && tc.id == None
    requires t in tcs + [tc] && t.id.Some?
    ensures var final := CallsOf(OnToolDelta(ids, tc).1, calls);
            t.id.value in final
            && final[t.id.value] == ToolCallBuilder(OrElse(t.name, ""), Fragments(tcs + [tc], Position(t)))
  {
    var arguments := OrElse(tc.arguments, "");
    DeltaEffect(tcs, tc, ids, calls);
    FragmentsSnoc(tcs, tc, Position(t));
    assert t in tcs;
    if arguments == "" {
      assert Fragments(tcs, Position(t)) + arguments == Fragments(tcs, Position(t));
    } else {
      OpenerIs(tcs, Position(tc));
      SameCall(tcs + [tc], t, Opener(tcs, Position(tc)).value);
    }
  }

  lemma ReassembledSnoc(tcs: seq<ToolDelta>, tc: ToolDelta, ids: Entries, calls: Builders)
    requires OpenedOnce(tcs + [tc]) && Remembered(tcs, ids) && Reassembled(tcs, calls)
    ensures Reassembled(tcs + [tc], CallsOf(OnToolDelta(ids, tc).1, calls))
  {
    var final := CallsOf(OnToolDelta(ids, tc).1, calls);
    forall t | t in tcs + [tc] && t.id.Some?
      ensures t.id.value in final
        && final[t.id.value] == ToolCallBuilder(OrElse(t.name, ""), Fragments(tcs + [tc], Position(t)))
    {
      if tc.id.Some? {
        ReassembledAtOpening(tcs, tc, ids, calls, t);
      } else {
        ReassembledAtFragment(tcs, tc, ids, calls, t);
      }
    }
    DeltaEffect(tcs, tc, ids, calls);
    forall id | id in final
      ensures exists t | t in tcs + [tc] :: t.id == Some(id)
    {
      if id in calls {
        var t :| t in tcs && t.id == Some(id);
        assert t in tcs + [tc];
      } else {
        assert tc in tcs + [tc];
      }
    }
  }

  lemma ToolDeltasSnoc(ids: Entries, tcs: seq<ToolDelta>, tc: ToolDelta)
    ensures var (ids1, e1) := OnToolDeltas(ids, tcs);
            var (ids2, e2) := OnToolDelta(ids1, tc);
            OnToolDeltas(ids, tcs + [tc]) == (ids2, e1 + e2)
  {
    var ids1 := OnToolDeltas(ids, tcs).0;
    var (ids2, e2) := OnToolDelta(ids1, tc);
    ToolDeltasAppend(ids, tcs, [tc]);
    assert OnToolDeltas(ids1, [tc]) == (ids2, e2) by {
      assert [tc][1..] == [] && e2 + [] == e2;
    }
  }

  lemma NoDeltas()
    ensures Remembered([], []) && Reassembled([], CallsOf([], map[]))
  {
  }

  /** For any interleaving of indices: the parser remembers each opener's id, and each call gets
      its id, name and exactly its own fragments in order. */
  lemma {:induction false} DeltasReassemble(tcs: seq<ToolDelta>)
    requires OpenedOnce(tcs)
    ensures var (ids, events) := OnToolDeltas([], tcs);
            Remembered(tcs, ids) && Reassembled(tcs, CallsOf(events, map[]))
  {
    hide OnToolDelta, OpenedOnce, Remembered, Reassembled, CallsOf;
    if tcs == [] {
      NoDeltas();
    } else {
      var n := |tcs| - 1;
      var before, tc := tcs[..n], tcs[n];
      OpenedOncePrefix(tcs, n);
      DeltasReassemble(before);
      assert tcs == before + [tc];
      var (ids, events) := OnToolDeltas([], before);
      ToolDeltasSnoc([], before, tc);
      CallsOfAppend(events, OnToolDelta(ids, tc).1, map[]);
      RememberedSnoc(before, tc, ids);
      ReassembledSnoc(before, tc, ids, CallsOf(events, map[]));
    }
  }

  // ---- other events ----

  lemma {:induction false} NoCallEvents(events: seq<StreamEvent>, calls: Builders)
    requires forall e | e in events :: !e.ToolCallStart? && !e.ToolCallDelta?
    ensures CallsOf(events, calls) == calls
  {
    if events != [] {
      NoCallEvents(events[1..], calls);
    }
  }

  lemma {:induction false} EndsAreEnds(ids: seq<string>)
    ensures forall e | e in Ends(ids) :: e.ToolCallEnd?
  {
    if ids != [] { EndsAreEnds(ids[1..]); }
  }

  lemma {:induction false} AllTokensAppend(first: seq<StreamEvent>, second: seq<StreamEvent>)
    ensures AllTokens(first + second) == AllTokens(first) + AllTokens(second)
  {
    if first == [] {
      assert first + second == second;
    } else {
      assert (first + second)[1..] == first[1..] + second;
      AllTokensAppend(first[1..], second);
      AppendAssociates(if first[0].Token? then first[0].content else "", AllTokens(first[1..]), AllTokens(second));
    }
  }

  lemma {:induction false} NoTokens(events: seq<StreamEvent>)
    requires forall e | e in events :: !e.Token?
    ensures AllTokens(events) == ""
  {
    if events != [] {
      assert events[0] in events;
      NoTokens(events[1..]);
    }
  }
}

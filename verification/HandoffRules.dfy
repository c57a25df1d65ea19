/** Handoff rules: conditions on an agent's JSON output decide where to go next. Paths with the
    wildcard are evaluated by printing the parts before and after it and parsing them again. */
module HandoffRules {
  import opened Text
  import opened HandoffPath
  import opened HandoffTarget

  const MAX_JSON_DEPTH: nat := 50

  datatype Json =
    | Null
    | Bool(b: bool)
    | Number(n: real)
    | String(s: string)
    | Array(elements: seq<Json>)
    | Object(fields: map<string, Json>)

  datatype Condition = Condition(field: string, op: string, value: Json)

  // The comparison of a field value with a condition's operator and value.
  type Operator = (Json, Condition) -> bool

  datatype Rule = Rule(
    condition: Option<Condition>, all: Option<seq<Condition>>, any: Option<seq<Condition>>,
    isDefault: bool, target: Option<HandoffTarget>)

  // ---- resolving a path ----

  function Child(v: Json, segment: Segment): Option<Json> {
    match segment
    case Key(k) => if v.Object? && k in v.fields then Some(v.fields[k]) else None
    case Index(i) => if v.Array? && i < |v.elements| then Some(v.elements[i]) else None
    case Any => Some(v)
  }

  // Follows the segments; a wildcard stops where it is, and so does the depth limit.
  function Walk(v: Json, segments: seq<Segment>, depth: nat): Option<Json>
    decreases |segments|
  {
    if segments == [] then Some(v)
    else if depth + 1 > MAX_JSON_DEPTH then None
    else if segments[0] == Any then Some(v)
    else
      var child := Child(v, segments[0]);
      if child == None then None else Walk(child.value, segments[1..], depth + 1)
  }

  function Resolve(root: Json, path: string): Option<Json> {
    Walk(root, SegmentsOf(path), 0)
  }

  method ResolveField(root: Json, path: string) returns (r: Option<Json>)
    ensures r == Resolve(root, path)
  {
    var current := root;
    var segments := ParsePath(path);
    for depth := 0 to |segments|
      invariant Walk(current, segments[depth..], depth) == Walk(root, segments, 0)
    {
      assert segments[depth..][1..] == segments[depth + 1..];
      if depth + 1 > MAX_JSON_DEPTH {
        return None;
      }
      match segments[depth] {
        case Key(k) =>
          if !(current.Object? && k in current.fields) {
            return None;
          }
          current := current.fields[k];
        case Index(i) =>
          if !(current.Array? && i < |current.elements|) {
            return None;
          }
          current := current.elements[i];
        case Any =>
          return Some(current);
      }
    }
    return Some(current);
  }

  // ---- evaluating conditions ----

  function FirstAny(segments: seq<Segment>): (k: nat)
    ensures k <= |segments|
  {
    if segments == [] || segments[0] == Any then 0 else 1 + FirstAny(segments[1..])
  }

  /** Position of the first wildcard, or the length. */
  lemma {:induction false} FirstAnyIs(segments: seq<Segment>)
    ensures var k := FirstAny(segments); Any !in segments[..k] && (k < |segments| ==> segments[k] == Any)
  {
    if segments != [] && segments[0] != Any {
      FirstAnyIs(segments[1..]);
      var k := FirstAny(segments[1..]);
      assert segments[..k + 1] == [segments[0]] + segments[1..][..k];
    }
  }

  // The printed paths before and after the first wildcard.
  function SplitAtAny(path: string): Option<(string, string)> {
    var segments := SegmentsOf(path);
    var k := FirstAny(segments);
    if k == |segments| then None else Some((Rebuild(segments[..k]), Rebuild(segments[k + 1..])))
  }

  predicate Satisfies(op: Operator, v: Option<Json>, c: Condition) {
    v.Some? && op(v.value, c)
  }

  predicate EvalCondition(op: Operator, c: Condition, output: Json) {
    var split := SplitAtAny(c.field);
    if split.Some? then
      var prefix := Resolve(output, split.value.0);
      if prefix.Some? && prefix.value.Array?
      then exists e | e in prefix.value.elements :: Satisfies(op, Resolve(e, split.value.1), c)
      else false
    else Satisfies(op, Resolve(output, c.field), c)
  }

  predicate EvalRule(op: Operator, rule: Rule, output: Json) {
    if rule.isDefault then true
    else if rule.condition.Some? then EvalCondition(op, rule.condition.value, output)
    else if rule.all.Some? then rule.all.value != [] && forall c | c in rule.all.value :: EvalCondition(op, c, output)
    else if rule.any.Some? then rule.any.value != [] && exists c | c in rule.any.value :: EvalCondition(op, c, output)
    else false
  }

  function EvalRules(op: Operator, rules: seq<Rule>, output: Json): Option<HandoffTarget> {
    if rules == [] then None
    else if EvalRule(op, rules[0], output) then rules[0].target
    else EvalRules(op, rules[1..], output)
  }

  // Position of the first rule that applies, or the length.
  function FirstApplying(op: Operator, rules: seq<Rule>, output: Json): (k: nat)
    ensures k <= |rules|
  {
    if rules == [] || EvalRule(op, rules[0], output) then 0 else 1 + FirstApplying(op, rules[1..], output)
  }

  lemma {:induction false} FirstApplyingIs(op: Operator, rules: seq<Rule>, output: Json, j: nat)
    ensures var k := FirstApplying(op, rules, output);
            (k < |rules| ==> EvalRule(op, rules[k], output)) && (j < k ==> !EvalRule(op, rules[j], output))
  {
    hide EvalRule;
    if rules != [] && !EvalRule(op, rules[0], output) {
      FirstApplyingIs(op, rules[1..], output, if j > 0 then j - 1 else 0);
    }
  }

  /** The first rule that applies decides; its target may be the end of the chain. */
  lemma {:induction false} FirstRuleDecides(op: Operator, rules: seq<Rule>, output: Json)
    ensures var k := FirstApplying(op, rules, output);
            EvalRules(op, rules, output) == if k < |rules| then rules[k].target else None
  {
    hide EvalRule;
    if rules != [] && !EvalRule(op, rules[0], output) {
      FirstRuleDecides(op, rules[1..], output);
    }
  }

  // ---- the wildcard ----

  // Following a path without a limit on its depth.
  function Follow(v: Json, segments: seq<Segment>): Option<Json>
    decreases |segments|
  {
    if segments == [] || segments[0] == Any then Some(v)
    else
      var child := Child(v, segments[0]);
      if child == None then None else Follow(child.value, segments[1..])
  }

  // How many segments a traversal looks at: all, or those up to the first wildcard.
  function Reach(segments: seq<Segment>): nat {
    if segments == [] then 0 else if segments[0] == Any then 1 else 1 + Reach(segments[1..])
  }

  // The limit makes a path that is too deep resolve to nothing, and changes nothing else.
  lemma {:induction false} WalkIsFollow(v: Json, segments: seq<Segment>, depth: nat)
    requires depth <= MAX_JSON_DEPTH
    ensures Walk(v, segments, depth)
         == if depth + Reach(segments) <= MAX_JSON_DEPTH then Follow(v, segments) else None
    decreases |segments|
  {
    hide Child;
    if segments != [] && segments[0] != Any && depth < MAX_JSON_DEPTH {
      var child := Child(v, segments[0]);
      if child.Some? {
        WalkIsFollow(child.value, segments[1..], depth + 1);
      }
    }
  }

  lemma {:induction false} FollowAppend(v: Json, first: seq<Segment>, second: seq<Segment>)
    requires Any !in first
    ensures Follow(v, first + second)
         == if Follow(v, first) == None then None else Follow(Follow(v, first).value, second)
    ensures Reach(first + second) == |first| + Reach(second)
    decreases |first|
  {
    hide Child;
    if first == [] {
      assert first + second == second;
    } else {
      assert (first + second)[1..] == first[1..] + second;
      assert first[0] != Any && Any !in first[1..];
      var child := Child(v, first[0]);
      FollowAppend(if child.Some? then child.value else v, first[1..], second);
    }
  }

  lemma {:induction false} ReachWithoutAny(segments: seq<Segment>)
    requires Any !in segments
    ensures Reach(segments) == |segments|
  {
    if segments != [] {
      assert segments[0] != Any && Any !in segments[1..];
      ReachWithoutAny(segments[1..]);
    }
  }

  lemma FollowIndex(v: Json, i: nat, segments: seq<Segment>)
    ensures Follow(v, [Index(i)] + segments)
         == if v.Array? && i < |v.elements| then Follow(v.elements[i], segments) else None
    ensures Reach([Index(i)] + segments) == 1 + Reach(segments)
  {
    assert ([Index(i)] + segments)[1..] == segments;
  }

  // The path with a position in place of its first wildcard, as text.
  function WithIndex(path: string, i: nat): string {
    var segments := SegmentsOf(path);
    var k := FirstAny(segments);
    if k == |segments| then path else Rebuild(segments[..k] + [Index(i)] + segments[k + 1..])
  }

  // What the printed parts around the first wildcard parse to.
  lemma PartsParse(path: string)
    requires SplitAtAny(path).Some?
    ensures var (before, after) := SplitAtAny(path).value;
            var segments, k := SegmentsOf(path), FirstAny(SegmentsOf(path));
            SegmentsOf(before) == segments[..k] && SegmentsOf(after) == segments[k + 1..] && Any !in segments[..k]
  {
    hide ScanPath;
    var segments := SegmentsOf(path);
    var k := FirstAny(segments);
    ScanIsExpressible(path, "");
    FirstAnyIs(segments);
    ParseRebuild(segments[..k]);
    ParseRebuild(segments[k + 1..]);
  }

  lemma IndexParses(path: string, i: nat)
    requires SplitAtAny(path).Some? && i < USIZE_BOUND
    ensures var segments, k := SegmentsOf(path), FirstAny(SegmentsOf(path));
            SegmentsOf(WithIndex(path, i)) == segments[..k] + [Index(i)] + segments[k + 1..]
  {
    hide ScanPath;
    var segments := SegmentsOf(path);
    var k := FirstAny(segments);
    ScanIsExpressible(path, "");
    ParseRebuild(segments[..k] + [Index(i)] + segments[k + 1..]);
  }

  // The segments before and after the first wildcard.
  function Before(path: string): seq<Segment> {
    SegmentsOf(path)[..FirstAny(SegmentsOf(path))]
  }

  function Behind(path: string): seq<Segment>
    requires SplitAtAny(path).Some?
  {
    SegmentsOf(path)[FirstAny(SegmentsOf(path)) + 1..]
  }

  // With a position in place of the wildcard the traversal stays within its limit.
  predicate WithinDepth(path: string)
    requires SplitAtAny(path).Some?
  {
    |Before(path)| + 1 + Reach(Behind(path)) <= MAX_JSON_DEPTH
  }

  // One of the parts is too deep on its own.
  predicate TooDeep(path: string)
    requires SplitAtAny(path).Some?
  {
    |Before(path)| > MAX_JSON_DEPTH || Reach(Behind(path)) > MAX_JSON_DEPTH
  }

  // Resolving the parts, and resolving the path with a position.
  lemma PartsResolve(v: Json, path: string)
    requires SplitAtAny(path).Some?
    ensures var (before, after) := SplitAtAny(path).value;
            Resolve(v, before) == (if |Before(path)| <= MAX_JSON_DEPTH then Follow(v, Before(path)) else None)
            && Resolve(v, after) == (if Reach(Behind(path)) <= MAX_JSON_DEPTH then Follow(v, Behind(path)) else None)
  {
    hide SegmentsOf, Rebuild, FirstAny, Walk, Follow, Reach;
    PartsParse(path);
    var pre, suf := Before(path), Behind(path);
    WalkIsFollow(v, pre, 0);
    WalkIsFollow(v, suf, 0);
    ReachWithoutAny(pre);
  }

  // Resolving such a path is resolving the rest below one element of the array.
  lemma ResolveWithIndex(output: Json, path: string, i: nat)
    requires SplitAtAny(path).Some? && i < USIZE_BOUND
    ensures var prefix := Follow(output, Before(path));
            Resolve(output, WithIndex(path, i))
            == if WithinDepth(path) && prefix.Some? && prefix.value.Array? && i < |prefix.value.elements|
               then Follow(prefix.value.elements[i], Behind(path)) else None
  {
    hide SegmentsOf, Rebuild, FirstAny, Walk, Follow, Reach, WithIndex, SplitAtAny;
    var pre, suf := Before(path), Behind(path);
    var rest := [Index(i)] + suf;
    PartsParse(path);
    IndexParses(path, i);
    assert pre + [Index(i)] + suf == pre + rest;
    WalkIsFollow(output, pre + rest, 0);
    FollowAppend(output, pre, rest);
    var prefix := Follow(output, pre);
    FollowIndex(if prefix.Some? then prefix.value else output, i, suf);
  }

  // Some concrete position in place of the wildcard makes the same path resolve to a value that
  // satisfies the operator.
  ghost predicate SomeIndexHolds(op: Operator, c: Condition, output: Json)
    requires SplitAtAny(c.field).Some?
  {
    var prefix := Resolve(output, SplitAtAny(c.field).value.0);
    prefix.Some? && prefix.value.Array?
    && exists i | 0 <= i < |prefix.value.elements| :: Satisfies(op, Resolve(output, WithIndex(c.field, i)), c)
  }

  // The array's positions are machine integers, as those of any array in memory are.
  predicate Addressable(c: Condition, output: Json)
    requires SplitAtAny(c.field).Some?
  {
    var prefix := Resolve(output, SplitAtAny(c.field).value.0);
    prefix.Some? && prefix.value.Array? ==> |prefix.value.elements| <= USIZE_BOUND
  }

  /** A condition with a wildcard holds exactly when the part before the (first) wildcard is an
      array and some concrete position in place of the wildcard makes the same path resolve to
      a value that satisfies the operator. */
  lemma AnyMeansSomeIndex(op: Operator, c: Condition, output: Json)
    requires SplitAtAny(c.field).Some? && Addressable(c, output) && WithinDepth(c.field)
    ensures EvalCondition(op, c, output) <==> SomeIndexHolds(op, c, output)
  {
    hide Follow, Reach, SegmentsOf, Rebuild, FirstAny, Walk;
    var (before, after) := SplitAtAny(c.field).value;
    var prefix := Resolve(output, before);
    PartsResolve(output, c.field);
    if prefix.Some? && prefix.value.Array? {
      var elements := prefix.value.elements;
      forall i | 0 <= i < |elements|
        ensures Resolve(output, WithIndex(c.field, i)) == Resolve(elements[i], after)
      {
        ResolveWithIndex(output, c.field, i);
        PartsResolve(elements[i], c.field);
      }
      if EvalCondition(op, c, output) {
        var e :| e in elements && Satisfies(op, Resolve(e, after), c);
        var i :| 0 <= i < |elements| && elements[i] == e;
        assert Satisfies(op, Resolve(output, WithIndex(c.field, i)), c);
      }
      if i :| 0 <= i < |elements| && Satisfies(op, Resolve(output, WithIndex(c.field, i)), c) {
        assert elements[i] in elements;
      }
    }
  }

  // ---- beyond the depth limit ----

  // A value in which the segments lead to `v`.
  function Nest(segments: seq<Segment>, v: Json): Json {
    if segments == [] then v
    else
      match segments[0]
      case Any => v
      case Key(k) => Object(map[k := Nest(segments[1..], v)])
      case Index(i) => Array(seq(i + 1, _ => Nest(segments[1..], v)))
  }

  lemma {:induction false} NestedIsFound(segments: seq<Segment>, v: Json)
    ensures Follow(Nest(segments, v), segments) == Some(v)
  {
    if segments != [] && segments[0] != Any {
      NestedIsFound(segments[1..], v);
    }
  }

  lemma DeepPathsDiffer(c: Condition) returns (op: Operator, output: Json)
    requires SplitAtAny(c.field).Some? && !WithinDepth(c.field) && !TooDeep(c.field)
    ensures Addressable(c, output) && EvalCondition(op, c, output) && !SomeIndexHolds(op, c, output)
  {
    hide Follow, Reach, SegmentsOf, Rebuild, FirstAny, Walk, Nest;
    var element := Nest(Behind(c.field), Null);
    op := (_, _) => true;
    output := Nest(Before(c.field), Array([element]));
    NestedIsFound(Before(c.field), Array([element]));
    NestedIsFound(Behind(c.field), Null);
    PartsResolve(output, c.field);
    PartsResolve(element, c.field);
    assert element in [element];
    ResolveWithIndex(output, c.field, 0);
  }

  lemma TooDeepNeverHolds(op: Operator, c: Condition, output: Json)
    requires SplitAtAny(c.field).Some? && TooDeep(c.field) && Addressable(c, output)
    ensures !EvalCondition(op, c, output) && !SomeIndexHolds(op, c, output)
  {
    hide Follow, Reach, SegmentsOf, Rebuild, FirstAny, Walk;
    var prefix := Resolve(output, SplitAtAny(c.field).value.0);
    PartsResolve(output, c.field);
    if prefix.Some? && prefix.value.Array? {
      var elements := prefix.value.elements;
      forall i | 0 <= i < |elements|
        ensures Resolve(output, WithIndex(c.field, i)) == None
        ensures Resolve(elements[i], SplitAtAny(c.field).value.1) == None
      {
        ResolveWithIndex(output, c.field, i);
        PartsResolve(elements[i], c.field);
      }
    }
  }

  /** For paths of any depth: the wildcard means some position, for every operator and output,
      exactly when the path with a position stays within the limit, or one of its parts is too
      deep even alone, so that neither side ever holds. */
  lemma AnyMeansSomeIndexIff(c: Condition)
    requires SplitAtAny(c.field).Some?
    ensures (forall op, output | Addressable(c, output) :: EvalCondition(op, c, output)
              <==> SomeIndexHolds(op, c, output))
            <==> WithinDepth(c.field) || TooDeep(c.field)
  {
    if WithinDepth(c.field) || TooDeep(c.field) {
      forall op, output | Addressable(c, output)
        ensures EvalCondition(op, c, output) <==> SomeIndexHolds(op, c, output)
      {
        if WithinDepth(c.field) {
          AnyMeansSomeIndex(op, c, output);
        } else {
          TooDeepNeverHolds(op, c, output);
        }
      }
    } else {
      var op, output := DeepPathsDiffer(c);
      assert EvalCondition(op, c, output) && !SomeIndexHolds(op, c, output);
    }
  }

  // ---- conditions and rules, case by case ----

  /** A condition on a path without a wildcard holds exactly when the path, at most 50 segments of
      it, leads to a value and the value satisfies the operator. */
  lemma PlainConditionHolds(op: Operator, c: Condition, output: Json)
    requires Any !in SegmentsOf(c.field)
    ensures EvalCondition(op, c, output) <==>
              |SegmentsOf(c.field)| <= 50 && Follow(output, SegmentsOf(c.field)).Some?
              && op(Follow(output, SegmentsOf(c.field)).value, c)
  {
    hide SegmentsOf, Walk, Follow;
    FirstAnyIs(SegmentsOf(c.field));
    WalkIsFollow(output, SegmentsOf(c.field), 0);
    ReachWithoutAny(SegmentsOf(c.field));
  }

  // A rule with nothing but these lists of conditions.
  function ListRule(all: Option<seq<Condition>>, any: Option<seq<Condition>>): Rule {
    Rule(None, all, any, false, None)
  }

  /** One condition more makes a rule that needs all of them hold less often, and one that needs
      any of them more often; a list of one is that condition, and empty lists never hold. */
  lemma ListsOfConditions(op: Operator, cs: seq<Condition>, c: Condition, output: Json)
    ensures !EvalRule(op, ListRule(Some([]), None), output) && !EvalRule(op, ListRule(None, Some([])), output)
    ensures EvalRule(op, ListRule(Some([c]), None), output) <==> EvalCondition(op, c, output)
    ensures EvalRule(op, ListRule(None, Some([c])), output) <==> EvalCondition(op, c, output)
    ensures cs != [] ==>
              (EvalRule(op, ListRule(Some(cs + [c]), None), output)
               <==> EvalRule(op, ListRule(Some(cs), None), output) && EvalCondition(op, c, output))
    ensures EvalRule(op, ListRule(None, Some(cs + [c])), output)
            <==> EvalRule(op, ListRule(None, Some(cs)), output) || EvalCondition(op, c, output)
  {
    hide EvalCondition;
    assert c in [c] && c in cs + [c] && forall d | d in cs :: d in cs + [c];
  }

  /** A default rule always applies. Otherwise its condition decides, without one the list of which
      all must hold, and without that the list of which any must; a rule with none never applies. */
  lemma RuleOfPrecedence(op: Operator, r: Rule, output: Json)
    ensures r.isDefault ==> EvalRule(op, r, output)
    ensures !r.isDefault && r.condition.Some? ==>
              (EvalRule(op, r, output) <==> EvalRule(op, ListRule(Some([r.condition.value]), None), output))
    ensures !r.isDefault && r.condition == None && r.all.Some? ==>
              (EvalRule(op, r, output) <==> EvalRule(op, ListRule(r.all, None), output))
    ensures !r.isDefault && r.condition == None && r.all == None ==>
              (EvalRule(op, r, output) <==> r.any.Some? && EvalRule(op, ListRule(None, r.any), output))
  {
    hide EvalCondition;
    if r.condition.Some? {
      assert r.condition.value in [r.condition.value];
    }
  }
}
